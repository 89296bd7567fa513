/**
 The mounted namespace as its operations see it: the path index, the metadata records by id, and the chunk files by id
 and chunk index. What each operation does to the invariant is stated exactly; in `Mount` the records are texts.
 */
module Namespace {
  import opened Bytes
  import opened FileIds
  import opened ChunkedFile

  type ChunkKey = (string, nat)

  datatype Fs = Fs(index: map<string, string>, metas: map<string, FileMeta>, blobs: map<ChunkKey, seq<byte>>)

  const EMPTY_FS := Fs(map[], map[], map[])

  /** `Thrown` is the exception of a record whose numbers do not parse. */
  datatype Status = Done(count: nat) | ENOENT | EEXIST | Thrown

  datatype Op =
    | Create(path: string, mode: nat, now: int)
    | Write(path: string, buf: seq<byte>, off: nat, now: int)
    | Truncate(path: string, ns: nat, now: int)
    | Unlink(path: string)
    | Rename(from: string, to: string)

  function PathToId(index: map<string, string>, p: string): string
  {
    if p in index then index[p] else ""
  }

  // ---------------------------------------------------------------- one file of the namespace

  function BlobsOf(blobs: map<ChunkKey, seq<byte>>, id: string): map<nat, seq<byte>>
  {
    map k | k in blobs && k.0 == id :: k.1 := blobs[k]
  }

  /** The chunk files of `id` replaced by `bs`. */
  function PutBlobs(blobs: map<ChunkKey, seq<byte>>, id: string, bs: map<nat, seq<byte>>): map<ChunkKey, seq<byte>>
  {
    (map k | k in blobs && k.0 != id :: blobs[k]) + (map i | i in bs :: (id, i) := bs[i])
  }

  lemma BlobAt(blobs: map<ChunkKey, seq<byte>>, id: string, i: nat)
    ensures i in BlobsOf(blobs, id) <==> (id, i) in blobs
    ensures i in BlobsOf(blobs, id) ==> BlobsOf(blobs, id)[i] == blobs[(id, i)]
  {
    if (id, i) in blobs {
      assert i in BlobsOf(blobs, id);
    }
  }

  lemma PutBlobAt(blobs: map<ChunkKey, seq<byte>>, id: string, bs: map<nat, seq<byte>>, other: string, i: nat)
    ensures var put := PutBlobs(blobs, id, bs);
            && ((other, i) in put <==> if other == id then i in bs else (other, i) in blobs)
            && ((other, i) in put ==> put[(other, i)] == if other == id then bs[i] else blobs[(other, i)])
  {
  }

  lemma PutBlobsOf(blobs: map<ChunkKey, seq<byte>>, id: string, bs: map<nat, seq<byte>>, other: string)
    ensures BlobsOf(PutBlobs(blobs, id, bs), other) == if other == id then bs else BlobsOf(blobs, other)
  {
    hide PutBlobs, BlobsOf;
    var put := PutBlobs(blobs, id, bs);
    var got, want := BlobsOf(put, other), if other == id then bs else BlobsOf(blobs, other);
    forall i: nat ensures (i in got <==> i in want) && (i in got ==> got[i] == want[i]) {
      BlobAt(put, other, i);
      BlobAt(blobs, other, i);
      PutBlobAt(blobs, id, bs, other, i);
    }
  }

  function FileOf(s: Fs, id: string): File
    requires id in s.metas
  {
    var m := s.metas[id];
    File(m.logicalSize, m.nChunks, m.compressedSize, BlobsOf(s.blobs, id))
  }

  /** The record of a file whose table has become `f`. */
  function Updated(m: FileMeta, f: File, now: int): FileMeta
  {
    m.(logicalSize := f.size, nChunks := f.n, compressedSize := f.csize, mtime := now, ctime := now)
  }

  /** Store `f` as the state of `id`; the record is saved under the id it carries. */
  function PutFile(s: Fs, id: string, f: File, now: int): Fs
    requires id in s.metas
  {
    var m := s.metas[id];
    s.(metas := s.metas[m.pathId := Updated(m, f, now)], blobs := PutBlobs(s.blobs, id, f.blobs))
  }

  // ---------------------------------------------------------------- the operations

  function NewRecord(L: Layout, p: string, mode: nat, now: int): FileMeta
  {
    FileMeta(PathId(p), p, 0, 0, L.C, 0, now, now, now, mode % 512)
  }

  function CreateFs(L: Layout, s: Fs, p: string, mode: nat, now: int): (Fs, Status)
  {
    if PathToId(s.index, p) != "" then (s, EEXIST)
    else
      var m := NewRecord(L, p, mode, now);
      (s.(metas := s.metas[m.pathId := m], index := s.index[p := m.pathId]), Done(0))
  }

  function WriteFs(L: Layout, s: Fs, p: string, buf: seq<byte>, off: nat, now: int): (Fs, Status)
  {
    var id := PathToId(s.index, p);
    if |buf| == 0 then (s, Done(0))
    else if id == "" || id !in s.metas then (s, ENOENT)
    else (PutFile(s, id, Written(L, FileOf(s, id), buf, off), now), Done(|buf|))
  }

  function TruncateFs(L: Layout, s: Fs, p: string, ns: nat, now: int): (Fs, Status)
  {
    var id := PathToId(s.index, p);
    if id == "" || id !in s.metas then (s, ENOENT)
    else (PutFile(s, id, Truncated(L, FileOf(s, id), ns), now), Done(0))
  }

  /** The chunk files left when those of `id` from `keep` up to `n` are removed. */
  function RemoveChunks(blobs: map<ChunkKey, seq<byte>>, id: string, keep: nat, n: nat): map<ChunkKey, seq<byte>>
  {
    map k | k in blobs && !(k.0 == id && keep <= k.1 < n) :: blobs[k]
  }

  function MetaOrDefault(metas: map<string, FileMeta>, id: string): FileMeta
  {
    if id in metas then metas[id] else DEFAULT_META
  }

  function UnlinkFs(s: Fs, p: string): (Fs, Status)
  {
    var id := PathToId(s.index, p);
    if id == "" then (s, ENOENT)
    else
      var n := MetaOrDefault(s.metas, id).nChunks;
      (Fs(Without(s.index, p), Without(s.metas, id), RemoveChunks(s.blobs, id, 0, n)), Done(0))
  }

  /** What renaming onto an existing target removes first. */
  function DropTarget(s: Fs, to: string): Fs
  {
    var id := PathToId(s.index, to);
    if id == "" then s else UnlinkFs(s, to).0
  }

  /** The index entry of `from` becomes that of `to`; the id stays. */
  function Moved(t: Fs, from: string, to: string, id: string): Fs
  {
    var m := MetaOrDefault(t.metas, id).(logicalPath := to);
    Fs(Without(t.index, from)[to := id], t.metas[m.pathId := m], t.blobs)
  }

  function RenameFs(s: Fs, from: string, to: string): (Fs, Status)
  {
    var id := PathToId(s.index, from);
    if id == "" then (s, ENOENT)
    else (Moved(DropTarget(s, to), from, to, id), Done(0))
  }

  function Norm(p: string): string
  {
    if p == "" then "/" else p
  }

  function Apply(L: Layout, s: Fs, op: Op): (Fs, Status)
  {
    match op
    case Create(p, mode, now) => CreateFs(L, s, Norm(p), mode, now)
    case Write(p, buf, off, now) => WriteFs(L, s, Norm(p), buf, off, now)
    case Truncate(p, ns, now) => TruncateFs(L, s, Norm(p), ns, now)
    case Unlink(p) => UnlinkFs(s, Norm(p))
    case Rename(from, to) => RenameFs(s, Norm(from), Norm(to))
  }

  // ---------------------------------------------------------------- the invariant

  ghost predicate IndexedPath(s: Fs, p: string)
  {
    p in s.index ==> s.index[p] != "" && s.index[p] in s.metas
  }

  ghost predicate OnePath(s: Fs, p: string, q: string)
  {
    p in s.index && q in s.index && s.index[p] == s.index[q] ==> p == q
  }

  ghost predicate HasPath(s: Fs, id: string)
  {
    exists p :: p in s.index && s.index[p] == id
  }

  ghost predicate OwnedMeta(s: Fs, id: string)
  {
    id in s.metas ==> s.metas[id].pathId == id && HasPath(s, id)
  }

  ghost predicate GoodFile(L: Layout, s: Fs, id: string)
  {
    id in s.metas ==> WellFormed(L, FileOf(s, id))
  }

  /**
   Index, metadata and chunk files agree: every indexed path has a record, no two have one, every record has a path, and
   its table describes its chunk files, of which there are no others. The path that a record carries is read by nobody.
   */
  ghost predicate Inv(L: Layout, s: Fs)
  {
    && (forall p :: IndexedPath(s, p))
    && (forall p, q :: OnePath(s, p, q))
    && (forall id :: OwnedMeta(s, id))
    && (forall id :: GoodFile(L, s, id))
    && (forall k :: k in s.blobs ==> k.0 in s.metas)
  }

  ghost predicate Clean(L: Layout, s: Fs)
  {
    forall id :: id in s.metas ==> CleanTail(L, FileOf(s, id))
  }

  lemma EmptyInv(L: Layout)
    ensures Inv(L, EMPTY_FS) && Clean(L, EMPTY_FS)
  {
  }

  /** The index is injective, and no metadata or chunk file is without an indexed path. */
  lemma NoOrphans(L: Layout, s: Fs)
    requires Inv(L, s)
    ensures forall p, q :: p in s.index && q in s.index && s.index[p] == s.index[q] ==> p == q
    ensures forall id :: id in s.metas <==> exists p :: p in s.index && s.index[p] == id
    ensures forall k :: k in s.blobs ==> k.0 in s.metas && k.1 < s.metas[k.0].nChunks
  {
    forall p, q | p in s.index && q in s.index && s.index[p] == s.index[q] ensures p == q {
      assert OnePath(s, p, q);
    }
    forall id ensures id in s.metas <==> exists p :: p in s.index && s.index[p] == id {
      assert OwnedMeta(s, id);
      if p :| p in s.index && s.index[p] == id {
        assert IndexedPath(s, p);
      }
    }
    forall k | k in s.blobs ensures k.0 in s.metas && k.1 < s.metas[k.0].nChunks {
      var f := FileOf(s, k.0);
      assert GoodFile(L, s, k.0) && GoodChunk(L, f, k.1);
      assert k.1 in f.blobs;
    }
  }

  // ---------------------------------------------------------------- each operation keeps the invariant

  lemma PutFileOf(s: Fs, id: string, f: File, now: int, other: string)
    requires id in s.metas && s.metas[id].pathId == id && other in s.metas
    ensures other in PutFile(s, id, f, now).metas
    ensures FileOf(PutFile(s, id, f, now), other) == if other == id then f else FileOf(s, other)
  {
    PutBlobsOf(s.blobs, id, f.blobs, other);
  }

  lemma PutFileInv(L: Layout, s: Fs, id: string, f: File, now: int)
    requires Inv(L, s) && id in s.metas && WellFormed(L, f)
    ensures Inv(L, PutFile(s, id, f, now))
  {
    var t := PutFile(s, id, f, now);
    assert OwnedMeta(s, id);
    forall p ensures IndexedPath(t, p) {
      assert IndexedPath(s, p);
    }
    forall p, q ensures OnePath(t, p, q) {
      assert OnePath(s, p, q);
    }
    forall x ensures OwnedMeta(t, x) && GoodFile(L, t, x) {
      assert OwnedMeta(s, x) && GoodFile(L, s, x);
      assert HasPath(s, x) ==> HasPath(t, x);
      if x in s.metas {
        PutFileOf(s, id, f, now, x);
      }
    }
  }

  lemma WriteInv(L: Layout, s: Fs, p: string, buf: seq<byte>, off: nat, now: int)
    requires Inv(L, s)
    ensures Inv(L, WriteFs(L, s, p, buf, off, now).0)
  {
    var id := PathToId(s.index, p);
    if 0 < |buf| && id in s.metas {
      assert GoodFile(L, s, id);
      WrittenWellFormed(L, FileOf(s, id), buf, off);
      PutFileInv(L, s, id, Written(L, FileOf(s, id), buf, off), now);
    }
  }

  lemma TruncateInv(L: Layout, s: Fs, p: string, ns: nat, now: int)
    requires Inv(L, s)
    ensures Inv(L, TruncateFs(L, s, p, ns, now).0)
  {
    var id := PathToId(s.index, p);
    if id in s.metas {
      assert GoodFile(L, s, id);
      TruncatedWellFormed(L, FileOf(s, id), ns);
      PutFileInv(L, s, id, Truncated(L, FileOf(s, id), ns), now);
    }
  }

  lemma EmptyFileBlobs(L: Layout, s: Fs, id: string)
    requires Inv(L, s) && id !in s.metas
    ensures BlobsOf(s.blobs, id) == map[]
  {
  }

  lemma AddFileInv(L: Layout, s: Fs, p: string, m: FileMeta)
    requires Inv(L, s) && p !in s.index && m.pathId !in s.metas && m.pathId != ""
    requires m.logicalSize == 0 && m.nChunks == 0 && m.compressedSize == 0
    ensures var t := s.(metas := s.metas[m.pathId := m], index := s.index[p := m.pathId]);
            && Inv(L, t) && FileOf(t, m.pathId) == EMPTY
            && forall x :: x in s.metas ==> FileOf(t, x) == FileOf(s, x)
  {
    var t := s.(metas := s.metas[m.pathId := m], index := s.index[p := m.pathId]);
    EmptyFileBlobs(L, s, m.pathId);
    EmptyTable(L);
    AddPathInv(L, s, p, m);
    hide WellFormed, BlobsOf;
    assert FileOf(t, m.pathId) == EMPTY;
    forall x | x in s.metas ensures FileOf(t, x) == FileOf(s, x) && GoodFile(L, t, x) {
      assert GoodFile(L, s, x);
    }
    forall x ensures GoodFile(L, t, x) {
      assert x in t.metas ==> x == m.pathId || x in s.metas;
    }
  }

  lemma EmptyTable(L: Layout)
    ensures WellFormed(L, EMPTY)
  {
    CeilDivBounds(0, L.C);
  }

  /** A new path with a new id: the index side of the agreement. */
  lemma AddPathInv(L: Layout, s: Fs, p: string, m: FileMeta)
    requires Inv(L, s) && p !in s.index && m.pathId !in s.metas && m.pathId != ""
    ensures var t := s.(metas := s.metas[m.pathId := m], index := s.index[p := m.pathId]);
            && (forall q :: IndexedPath(t, q)) && (forall q, r :: OnePath(t, q, r)) && (forall x :: OwnedMeta(t, x))
            && forall k :: k in t.blobs ==> k.0 in t.metas
  {
    var t := s.(metas := s.metas[m.pathId := m], index := s.index[p := m.pathId]);
    hide WellFormed, BlobsOf;
    forall q ensures IndexedPath(t, q) {
      assert IndexedPath(s, q);
    }
    forall q, r ensures OnePath(t, q, r) {
      assert IndexedPath(s, q) && IndexedPath(s, r) && OnePath(s, q, r);
    }
    assert t.index[p] == m.pathId;
    forall x ensures OwnedMeta(t, x) {
      assert OwnedMeta(s, x);
      if x in s.metas {
        var q :| q in s.index && s.index[q] == x;
        assert t.index[q] == x;
      }
    }
  }

  /** Creating a path keeps the invariant exactly when its id is not already the id of a live file. */
  lemma CreateInv(L: Layout, s: Fs, p: string, mode: nat, now: int)
    requires Inv(L, s)
    ensures Inv(L, CreateFs(L, s, p, mode, now).0) <==> p in s.index || PathId(p) !in s.metas
  {
    var id := PathId(p);
    assert IndexedPath(s, p) && OwnedMeta(s, id);
    if p !in s.index {
      if id in s.metas {
        var q :| q in s.index && s.index[q] == id;
        assert !OnePath(CreateFs(L, s, p, mode, now).0, p, q);
      } else {
        AddFileInv(L, s, p, NewRecord(L, p, mode, now));
      }
    }
  }

  lemma RemoveChunksOf(L: Layout, s: Fs, id: string, other: string)
    requires Inv(L, s) && id in s.metas
    ensures BlobsOf(RemoveChunks(s.blobs, id, 0, s.metas[id].nChunks), other) ==
            if other == id then map[] else BlobsOf(s.blobs, other)
  {
    var f := FileOf(s, id);
    assert GoodFile(L, s, id);
    forall k | k in s.blobs && k.0 == id ensures k.1 < f.n {
      assert k.1 in f.blobs;
      assert GoodChunk(L, f, k.1);
    }
  }

  /** Unlinking an indexed path removes its record and every one of its chunk files, and nothing else. */
  lemma UnlinkInv(L: Layout, s: Fs, p: string)
    requires Inv(L, s)
    ensures Inv(L, UnlinkFs(s, p).0)
    ensures p in s.index ==>
              && UnlinkFs(s, p).0.index == Without(s.index, p)
              && s.index[p] !in UnlinkFs(s, p).0.metas
              && forall other :: other in s.metas && other != s.index[p] ==>
                   other in UnlinkFs(s, p).0.metas && FileOf(UnlinkFs(s, p).0, other) == FileOf(s, other)
  {
    assert IndexedPath(s, p);
    if p in s.index {
      var id, t := s.index[p], UnlinkFs(s, p).0;
      forall x ensures OwnedMeta(t, x) && GoodFile(L, t, x) {
        assert OwnedMeta(s, x) && GoodFile(L, s, x);
        RemoveChunksOf(L, s, id, x);
        if x in t.metas {
          var q :| q in s.index && s.index[q] == x;
          assert q in t.index && t.index[q] == x;
        }
      }
      forall q ensures IndexedPath(t, q) {
        assert IndexedPath(s, q) && OnePath(s, q, p);
      }
      forall q, r ensures OnePath(t, q, r) {
        assert OnePath(s, q, r);
      }
      forall k | k in t.blobs ensures k.0 in t.metas {
        RemoveChunksOf(L, s, id, id);
        assert k.1 in BlobsOf(t.blobs, k.0);
      }
    }
  }

  lemma DropTargetInv(L: Layout, s: Fs, to: string)
    requires Inv(L, s)
    ensures Inv(L, DropTarget(s, to)) && DropTarget(s, to).index == Without(s.index, to)
    ensures forall id :: id in s.metas && (to in s.index ==> id != s.index[to]) ==>
              id in DropTarget(s, to).metas && FileOf(DropTarget(s, to), id) == FileOf(s, id)
  {
    assert IndexedPath(s, to);
    UnlinkInv(L, s, to);
  }

  lemma MoveInv(L: Layout, t: Fs, from: string, to: string, id: string)
    requires Inv(L, t) && from in t.index && t.index[from] == id && to !in t.index && from != to
    ensures Inv(L, Moved(t, from, to, id))
  {
    assert IndexedPath(t, from) && OwnedMeta(t, id);
    var u := Moved(t, from, to, id);
    forall q ensures IndexedPath(u, q) {
      assert IndexedPath(t, q);
    }
    forall q, r ensures OnePath(u, q, r) {
      assert OnePath(t, q, r) && OnePath(t, q, from) && OnePath(t, r, from);
    }
    assert to in u.index && u.index[to] == id;
    forall x ensures OwnedMeta(u, x) && GoodFile(L, u, x) {
      assert OwnedMeta(t, x) && GoodFile(L, t, x);
      if x in u.metas {
        assert FileOf(u, x) == FileOf(t, x);
        var q :| q in t.index && t.index[q] == x;
        assert q != from ==> q in u.index && u.index[q] == x;
      }
    }
  }

  /** Renaming keeps the invariant exactly when the two paths differ, or there is nothing to rename. */
  lemma RenameInv(L: Layout, s: Fs, from: string, to: string)
    requires Inv(L, s)
    ensures Inv(L, RenameFs(s, from, to).0) <==> from !in s.index || from != to
  {
    assert IndexedPath(s, from) && IndexedPath(s, to);
    if from in s.index {
      var id := s.index[from];
      DropTargetInv(L, s, to);
      if from == to {
        UnlinkInv(L, s, to);
        assert !IndexedPath(RenameFs(s, from, to).0, to);
      } else {
        MoveInv(L, DropTarget(s, to), from, to, id);
      }
    }
  }

  // ---------------------------------------------------------------- records that describe the same files

  /** Two states with the same paths, chunk files and sizes, whose tables may count the chunks differently. */
  ghost predicate Alike(L: Layout, s: Fs, t: Fs)
  {
    && s.index == t.index && s.blobs == t.blobs && s.metas.Keys == t.metas.Keys
    && forall id :: AlikeAt(L, s, t, id)
  }

  ghost predicate AlikeAt(L: Layout, s: Fs, t: Fs, id: string)
  {
    id in s.metas && id in t.metas ==>
      && s.metas[id].pathId == t.metas[id].pathId && s.metas[id].logicalSize == t.metas[id].logicalSize
      && (WellFormed(L, FileOf(t, id)) ==> WellFormed(L, FileOf(s, id)))
  }

  lemma AlikeInv(L: Layout, s: Fs, t: Fs)
    requires Alike(L, s, t) && Inv(L, t)
    ensures Inv(L, s)
  {
    hide WellFormed;
    forall p ensures IndexedPath(s, p) {
      assert IndexedPath(t, p);
    }
    forall p, q ensures OnePath(s, p, q) {
      assert OnePath(t, p, q);
    }
    forall id ensures OwnedMeta(s, id) && GoodFile(L, s, id) {
      assert AlikeAt(L, s, t, id) && OwnedMeta(t, id) && GoodFile(L, t, id);
      assert HasPath(t, id) ==> HasPath(s, id);
    }
  }
}
