/**
 The mounted operations in the form they run: a store of metadata, a store of chunk files, chunk buffers copied
 into place, and loops over chunk indices. Each method is proved against the operation on the abstract state.
 */
module FuseOps {
  import opened Bytes
  import opened FileIds
  import opened ChunkedFile
  import opened ChunkedRead
  import opened Namespace
  import opened Mount
  import Listing

  // ---------------------------------------------------------------- the two stores

  class ChunkStore {
    const L: Layout
    var files: map<ChunkKey, seq<byte>>

    constructor (L: Layout, files: map<ChunkKey, seq<byte>>)
      ensures this.L == L && this.files == files
    {
      this.L := L;
      this.files := files;
    }

    method WriteChunk(id: string, i: nat, data: seq<byte>) returns (csz: nat)
      modifies this
      ensures files == old(files)[(id, i) := L.z.compress(data)] && csz == |L.z.compress(data)|
    {
      var frame := L.z.compress(data);
      files := files[(id, i) := frame];
      csz := |frame|;
    }

    /** Appends the decoded chunk to `out`; 0 means that nothing was appended. */
    method ReadChunk(id: string, i: nat, out: seq<byte>) returns (dsz: nat, out': seq<byte>)
      ensures match if (id, i) in files then L.z.decompress(files[(id, i)]) else None
              case Some(d) =>
                if |d| <= 2 * L.C then out' == out + d && dsz == |d| else out' == out && dsz == 0
              case None => out' == out && dsz == 0
    {
      if (id, i) !in files {
        return 0, out;
      }
      var d := Decoded(L, files[(id, i)]);
      return |d|, out + d;
    }

    method RemoveChunk(id: string, i: nat)
      modifies this
      ensures files == map k | k in old(files) && k != (id, i) :: old(files)[k]
    {
      files := map k | k in files && k != (id, i) :: files[k];
    }

    /** The removal loops of `remove_chunks` (from 0) and of a shrinking truncate (from the first chunk to drop). */
    method RemoveFrom(id: string, keep: nat, n: nat)
      modifies this
      ensures files == RemoveChunks(old(files), id, keep, n)
    {
      var i := keep;
      while i < n
        invariant keep <= i <= Max(keep, n) && files == RemoveChunks(old(files), id, keep, i)
      {
        RemoveChunk(id, i);
        i := i + 1;
      }
    }

    method ChunkDiskSize(id: string, i: nat) returns (n: nat)
      ensures n == DiskSize(BlobsOf(files, id), i)
    {
      n := if (id, i) in files then |files[(id, i)]| else 0;
      BlobAt(files, id, i);
    }

    /** The loop that recomputes `compressed_size`. */
    method SumDiskSizes(id: string, n: nat) returns (total: nat)
      ensures total == DiskSum(BlobsOf(files, id), n)
    {
      total := 0;
      var i := 0;
      while i < n
        invariant 0 <= i <= n && total == DiskSum(BlobsOf(files, id), i)
      {
        var sz := ChunkDiskSize(id, i);
        total := total + sz;
        i := i + 1;
      }
    }
  }

  /** The index in memory, and the index file and metadata texts on disk. */
  class MetaStore {
    var index: map<string, string>
    var indexFile: string
    var texts: map<string, string>

    constructor (indexFile: string, texts: map<string, string>)
      ensures index == TextMeta.LoadLines(Listing.Lines(indexFile))
      ensures this.indexFile == indexFile && this.texts == texts
    {
      this.indexFile, this.texts := indexFile, texts;
      new;
      index := TextMeta.LoadIndex(indexFile);
    }

    method Find(p: string) returns (id: string)
      ensures id == PathToId(index, p)
    {
      id := if p in index then index[p] else "";
    }

    /** The text is parsed into a fresh record. */
    method Load(id: string) returns (r: Record)
      ensures r == LoadRecord(texts, id)
    {
      if id !in texts {
        return NoFile;
      }
      var loaded := TextMeta.Load(texts[id], DEFAULT_META);
      r := if loaded == None then Unparsable else Found(loaded.value);
    }

    method Save(m: FileMeta)
      modifies this`texts
      ensures texts == SaveRecord(old(texts), m)
    {
      var text := TextMeta.Save(m);
      texts := texts[m.pathId := text];
    }

    method Remove(id: string)
      modifies this`texts
      ensures texts == Without(old(texts), id)
    {
      texts := Without(texts, id);
    }

    method SaveIndex()
      modifies this`indexFile
      ensures TextMeta.IndexFile(indexFile, index)
    {
      var text, order := TextMeta.SaveIndex(index);
      indexFile := text;
      assert indexFile == Listing.Written(TextMeta.IndexLines(order));
    }

    method IndexAdd(p: string, id: string)
      modifies this`index, this`indexFile
      ensures index == old(index)[p := id] && TextMeta.IndexFile(indexFile, index)
    {
      index := index[p := id];
      SaveIndex();
    }

    method IndexRemove(p: string)
      modifies this`index, this`indexFile
      ensures index == Without(old(index), p) && TextMeta.IndexFile(indexFile, index)
    {
      index := Without(index, p);
      SaveIndex();
    }
  }

  // ---------------------------------------------------------------- the copy plan of a write

  /** The variables `ws`, `bo` and `we` that `cfs_write` computes for chunk `ci`. */
  function WriteStart(C: pos, off: nat, ci: nat): int
  {
    if ci == off / C then off - ci * C else 0
  }

  function BufStart(C: pos, off: nat, ci: nat): int
  {
    if ci == off / C then 0 else (ci - off / C) * C - off % C
  }

  function WriteEnd(C: pos, off: nat, len: nat, ci: nat): int
  {
    Min(C, off + len - ci * C)
  }

  /**
   Every touched chunk gets a nonempty target range inside the chunk, at the file position that its buffer range
   stands for, and the range stays inside the buffer: the clamp on `tc` never fires.
   */
  lemma CopyPlan(C: pos, off: nat, len: nat, ci: nat)
    requires Touched(C, off, len, ci)
    ensures 0 <= WriteStart(C, off, ci) < WriteEnd(C, off, len, ci) <= C
    ensures 0 <= BufStart(C, off, ci) && off + BufStart(C, off, ci) == ci * C + WriteStart(C, off, ci)
    ensures BufStart(C, off, ci) + (WriteEnd(C, off, len, ci) - WriteStart(C, off, ci)) <= len
  {
    var fc, lc := off / C, (off + len - 1) / C;
    ChunkOf(off, fc, C);
    ChunkOf(off + len - 1, lc, C);
    MulMono(fc, ci, C);
    MulMono(ci, lc, C);
    MulSub(ci, fc, C);
  }

  /** The buffer ranges of the touched chunks are consecutive and cover the buffer exactly. */
  lemma CopyPlanCovers(C: pos, off: nat, len: nat, ci: nat)
    requires Touched(C, off, len, ci)
    ensures ci == off / C ==> BufStart(C, off, ci) == 0
    ensures var done := BufStart(C, off, ci) + (WriteEnd(C, off, len, ci) - WriteStart(C, off, ci));
            done == if ci == (off + len - 1) / C then len else BufStart(C, off, ci + 1)
  {
    var fc, lc := off / C, (off + len - 1) / C;
    CopyPlan(C, off, len, ci);
    ChunkOf(off, fc, C);
    ChunkOf(off + len - 1, lc, C);
    MulMono(ci, lc, C);
    MulSub(ci + 1, fc, C);
    assert (ci + 1) * C == ci * C + C;
  }

  method Memcpy(dst: array<byte>, at: nat, src: seq<byte>, from: nat, n: nat)
    requires at + n <= dst.Length && from + n <= |src|
    modifies dst
    ensures forall j :: 0 <= j < dst.Length ==>
              dst[j] == if at <= j < at + n then src[from + j - at] else old(dst[j])
  {
    var i := 0;
    while i < n
      invariant 0 <= i <= n
      invariant forall j :: 0 <= j < dst.Length ==>
                  dst[j] == if at <= j < at + i then src[from + j - at] else old(dst[j])
    {
      dst[at + i] := src[from + i];
      i := i + 1;
    }
  }

  /** One turn of the chunk loop of `cfs_write`: read, overlay the buffer range, and cut to the stored length. */
  method PatchChunk(L: Layout, ghost f: File, buf: seq<byte>, off: nat, ci: nat, tmp: seq<byte>)
    returns (data: seq<byte>)
    requires Touched(L.C, off, |buf|, ci)
    requires tmp == if ci < f.n then Chunk(L, f, ci) else []
    ensures data == Patched(L, f, buf, off, ci)
  {
    CopyPlan(L.C, off, |buf|, ci);
    var existing := new byte[L.C](_ => 0);
    var el := Min(|tmp|, L.C);
    Memcpy(existing, 0, tmp, 0, el);
    var ws, bo, we := WriteStart(L.C, off, ci), BufStart(L.C, off, ci), WriteEnd(L.C, off, |buf|, ci);
    var tc := Min(we - ws, |buf| - bo);
    Memcpy(existing, ws, buf, bo, tc);
    data := existing[..Max(el, we)];
    PatchedIs(L, f, buf, off, ci, data);
  }

  /** The two ways of saying that position `j` of chunk `ci` is written, and from which byte of the buffer. */
  lemma CopyPlanPosition(C: pos, off: nat, len: nat, ci: nat, j: nat)
    requires Touched(C, off, len, ci) && j < C
    ensures off <= ci * C + j < off + len <==> WriteStart(C, off, ci) <= j < WriteEnd(C, off, len, ci)
    ensures ci * C + j - off == BufStart(C, off, ci) + j - WriteStart(C, off, ci)
  {
    hide BufStart;
    CopyPlan(C, off, len, ci);
    LaterChunk(C, off, ci);
  }

  lemma LaterChunk(C: pos, off: nat, ci: nat)
    ensures off / C < ci ==> off < ci * C
  {
    ChunkOf(off, off / C, C);
    MulMono(off / C, ci, C);
  }

  lemma PatchedIs(L: Layout, f: File, buf: seq<byte>, off: nat, ci: nat, data: seq<byte>)
    requires Touched(L.C, off, |buf|, ci)
    requires var stored := if ci < f.n then Chunk(L, f, ci) else [];
             var el := Min(|stored|, L.C);
             var ws, bo, we := WriteStart(L.C, off, ci), BufStart(L.C, off, ci), WriteEnd(L.C, off, |buf|, ci);
             && 0 <= ws && 0 <= bo && bo + (we - ws) <= |buf|
             && |data| == Max(el, we)
             && forall j :: 0 <= j < |data| ==>
                  data[j] == if ws <= j < we then buf[bo + j - ws] else if j < el then stored[j] else 0
    ensures data == Patched(L, f, buf, off, ci)
  {
    hide WriteStart, BufStart, Chunk, Touched;
    CopyPlan(L.C, off, |buf|, ci);
    forall j | 0 <= j < |data| ensures data[j] == Patched(L, f, buf, off, ci)[j] {
      CopyPlanPosition(L.C, off, |buf|, ci, j);
    }
  }

  // ---------------------------------------------------------------- loop specifications

  /** `base` overwritten by the entries of `m` below `upto`. */
  function Upto<V>(base: map<nat, V>, m: map<nat, V>, upto: nat): map<nat, V>
  {
    base + map i | i in m && i < upto :: m[i]
  }

  lemma UptoStep<V>(base: map<nat, V>, m: map<nat, V>, i: nat)
    requires i in m
    ensures Upto(base, m, i + 1) == Upto(base, m, i)[i := m[i]]
    ensures (i in Upto(base, m, i) <==> i in base) && (i in base ==> Upto(base, m, i)[i] == base[i])
  {
  }

  lemma UptoEnds<V>(base: map<nat, V>, m: map<nat, V>, lo: nat, hi: nat)
    requires forall i :: i in m ==> lo <= i < hi
    ensures Upto(base, m, lo) == base && Upto(base, m, hi) == base + m
  {
  }

  lemma PatchedBlobsRange(L: Layout, f: File, buf: seq<byte>, off: nat, fc: nat, lc: nat)
    requires 0 < |buf| && fc == off / L.C && lc == (off + |buf| - 1) / L.C
    ensures forall i :: i in PatchedBlobs(L, f, buf, off) <==> fc <= i <= lc
  {
    TouchedSetIs(L.C, off, |buf|);
  }

  lemma PatchedBlobAt(L: Layout, f: File, buf: seq<byte>, off: nat, ci: nat)
    requires Touched(L.C, off, |buf|, ci)
    ensures ci in PatchedBlobs(L, f, buf, off)
    ensures PatchedBlobs(L, f, buf, off)[ci] == L.z.compress(Patched(L, f, buf, off, ci))
  {
    TouchedSetIs(L.C, off, |buf|);
  }

  lemma PutOne(blobs: map<ChunkKey, seq<byte>>, id: string, bs: map<nat, seq<byte>>, i: nat, b: seq<byte>)
    ensures PutBlobs(blobs, id, bs)[(id, i) := b] == PutBlobs(blobs, id, bs[i := b])
    ensures (id, i) in PutBlobs(blobs, id, bs) <==> i in bs
    ensures i in bs ==> PutBlobs(blobs, id, bs)[(id, i)] == bs[i]
  {
    hide PutBlobs;
    var got, want := PutBlobs(blobs, id, bs)[(id, i) := b], PutBlobs(blobs, id, bs[i := b]);
    PutBlobAt(blobs, id, bs, id, i);
    forall k: ChunkKey ensures (k in got <==> k in want) && (k in got ==> got[k] == want[k]) {
      PutBlobAt(blobs, id, bs, k.0, k.1);
      PutBlobAt(blobs, id, bs[i := b], k.0, k.1);
    }
  }

  lemma PutSame(blobs: map<ChunkKey, seq<byte>>, id: string)
    ensures PutBlobs(blobs, id, BlobsOf(blobs, id)) == blobs
  {
    hide PutBlobs, BlobsOf;
    var put := PutBlobs(blobs, id, BlobsOf(blobs, id));
    forall k: ChunkKey ensures (k in put <==> k in blobs) && (k in put ==> put[k] == blobs[k]) {
      PutBlobAt(blobs, id, BlobsOf(blobs, id), k.0, k.1);
      BlobAt(blobs, id, k.1);
    }
  }

  lemma PutCut(blobs: map<ChunkKey, seq<byte>>, id: string, keep: nat, n: nat)
    ensures RemoveChunks(blobs, id, keep, n) == PutBlobs(blobs, id, CutBlobs(BlobsOf(blobs, id), keep, n))
  {
    hide PutBlobs, BlobsOf;
    var cut := CutBlobs(BlobsOf(blobs, id), keep, n);
    var put, left := PutBlobs(blobs, id, cut), RemoveChunks(blobs, id, keep, n);
    forall k: ChunkKey ensures (k in put <==> k in left) && (k in put ==> put[k] == left[k]) {
      PutBlobAt(blobs, id, cut, k.0, k.1);
      BlobAt(blobs, id, k.1);
    }
  }

  /** Copying right behind what has been copied: `done` is the filled part, `start` the buffer at the outset. */
  method MemcpyNext(dst: array<byte>, at: nat, src: seq<byte>, from: nat, n: nat,
                    ghost done: seq<byte>, ghost start: seq<byte>)
    requires at + n <= dst.Length == |start| && from + n <= |src|
    requires at == |done| && dst[..] == done + start[at..]
    modifies dst
    ensures dst[..] == (done + src[from..from + n]) + start[at + n..]
  {
    Memcpy(dst, at, src, from, n);
  }

  lemma AssembleStops(parts: seq<seq<byte>>, skip: nat, want: nat)
    requires parts == [] || skip >= |parts[0]|
    ensures Assemble(parts, skip, want) == []
  {
  }

  lemma PackStep(done: seq<byte>, parts: seq<seq<byte>>, i: nat, off: nat, want: nat)
    requires i < |parts| && off < |parts[i]|
    ensures var take := Min(|parts[i]| - off, want);
            done + Assemble(parts[i..], off, want) ==
            (done + parts[i][off..off + take]) + Assemble(parts[i + 1..], 0, want - take)
  {
    assert parts[i..][1..] == parts[i + 1..];
  }

  /** What is to be packed, and the buffer before. */
  datatype Packing = Packing(all: seq<byte>, start: seq<byte>)

  /** `written` bytes are packed into the buffer; the rest is what these parts still give. */
  ghost predicate Packed(p: Packing, buf: seq<byte>, parts: seq<seq<byte>>, off: nat, want: nat, written: nat)
  {
    && written <= |p.all| && written <= want <= |p.start| == |buf|
    && buf == p.all[..written] + p.start[written..]
    && p.all == p.all[..written] + Assemble(parts, off, want - written)
  }

  lemma PackedFirst(p: Packing, parts: seq<seq<byte>>, skip: nat, want: nat)
    requires p.all == Assemble(parts, skip, want) && want <= |p.start|
    ensures Packed(p, p.start, parts[0..], skip, want, 0)
  {
    hide Assemble;
    assert parts[0..] == parts && p.start[0..] == p.start;
  }

  lemma PackedNext(p: Packing, parts: seq<seq<byte>>, i: nat, off: nat, want: nat, written: nat, take: nat)
    requires i < |parts| && off < |parts[i]| && written <= |p.all| && written <= want <= |p.start|
    requires take == Min(|parts[i]| - off, want - written)
    requires p.all == (p.all[..written] + parts[i][off..off + take]) + Assemble(parts[i + 1..], 0, want - written - take)
    ensures written + take <= |p.all| && p.all[..written] + parts[i][off..off + take] == p.all[..written + take]
    ensures Packed(p, p.all[..written + take] + p.start[written + take..], parts[i + 1..], 0, want, written + take)
  {
    hide Assemble;
  }

  /** When the parts are used up, or the next one ends before its first wanted byte, all is packed. */
  lemma PackedLast(p: Packing, buf: seq<byte>, parts: seq<seq<byte>>, off: nat, want: nat, written: nat)
    requires Packed(p, buf, parts, off, want, written) && (parts == [] || off >= |parts[0]|)
    ensures written == |p.all| <= want && buf == p.all + p.start[written..]
  {
    AssembleStops(parts, off, want - written);
  }

  // ---------------------------------------------------------------- the file system object

  class CrunchFs {
    const L: Layout
    const meta: MetaStore
    const store: ChunkStore

    ghost predicate Valid() {
      store.L == L
    }

    ghost function State(): Mounted
      reads meta, store
    {
      Mounted(meta.index, meta.texts, store.files)
    }

    /** The index file on disk lists the index in memory. */
    ghost predicate IndexSaved()
      reads meta
    {
      TextMeta.IndexFile(meta.indexFile, meta.index)
    }

    /**
     Start-up: the index is loaded from its file, texts and chunk files stay on disk. A file that lists an index whose
     paths have no tab or newline, and ids no newline, gives that index.
     */
    constructor (L: Layout, indexFile: string, texts: map<string, string>, files: map<ChunkKey, seq<byte>>)
      ensures Valid() && this.L == L && fresh(meta) && fresh(store)
      ensures State() == Mounted(TextMeta.LoadLines(Listing.Lines(indexFile)), texts, files)
      ensures forall index ::
                TextMeta.IndexFile(indexFile, index) && (forall p :: p in index ==> TextMeta.CleanEntry((p, index[p])))
                ==> State().index == index && IndexSaved()
    {
      this.L := L;
      meta := new MetaStore(indexFile, texts);
      store := new ChunkStore(L, files);
      new;
      forall index |
        TextMeta.IndexFile(indexFile, index) && (forall p :: p in index ==> TextMeta.CleanEntry((p, index[p])))
        ensures meta.index == index && IndexSaved()
      {
        TextMeta.IndexFileLoads(indexFile, index);
      }
    }

    method CfsCreate(path: string, mode: nat, now: int) returns (r: Status)
      modifies meta
      ensures (State(), r) == ApplyOn(L, old(State()), Create(path, mode, now))
      ensures old(IndexSaved()) ==> IndexSaved()
    {
      hide SaveRecord;
      var p := Norm(path);
      var found := meta.Find(p);
      if found != "" {
        return EEXIST;
      }
      var id := HashPath(p);
      meta.Save(FileMeta(id, p, 0, 0, L.C, 0, now, now, now, mode % 512));
      meta.IndexAdd(p, id);
      r := Done(0);
    }

    /** One turn of the chunk loop of `cfs_write`. */
    method WriteOne(id: string, n: nat, buf: seq<byte>, off: nat, ci: nat, ghost f: File)
      requires Valid() && Touched(L.C, off, |buf|, ci) && n == f.n
      requires (id, ci) in store.files <==> ci in f.blobs
      requires ci in f.blobs ==> store.files[(id, ci)] == f.blobs[ci]
      modifies store
      ensures store.files == old(store.files)[(id, ci) := L.z.compress(Patched(L, f, buf, off, ci))]
    {
      var tmp: seq<byte> := [];
      if ci < n {
        var el;
        el, tmp := store.ReadChunk(id, ci, tmp);
      }
      var data := PatchChunk(L, f, buf, off, ci, tmp);
      var csz := store.WriteChunk(id, ci, data);
    }

    method WriteChunks(id: string, n: nat, buf: seq<byte>, off: nat, ghost f: File)
      requires Valid() && 0 < |buf| && n == f.n && f.blobs == BlobsOf(store.files, id)
      modifies store
      ensures store.files == PutBlobs(old(store.files), id, Written(L, f, buf, off).blobs)
    {
      hide PutBlobs, PatchedBlobs, Patched, Upto, BlobsOf;
      var fc, lc := off / L.C, (off + |buf| - 1) / L.C;
      DivMono(off, off + |buf| - 1, L.C);
      ghost var base, pb := f.blobs, PatchedBlobs(L, f, buf, off);
      PatchedBlobsRange(L, f, buf, off, fc, lc);
      UptoEnds(base, pb, fc, lc + 1);
      PutSame(store.files, id);
      var ci := fc;
      while ci <= lc
        invariant fc <= ci <= lc + 1
        invariant store.files == PutBlobs(old(store.files), id, Upto(base, pb, ci))
      {
        PatchedBlobAt(L, f, buf, off, ci);
        UptoStep(base, pb, ci);
        PutOne(old(store.files), id, Upto(base, pb, ci), ci, pb[ci]);
        WriteOne(id, n, buf, off, ci, f);
        ci := ci + 1;
      }
    }

    method CfsWrite(path: string, buf: seq<byte>, off: nat, now: int) returns (r: Status)
      requires Valid()
      modifies meta, store
      ensures (State(), r) == ApplyOn(L, old(State()), Write(path, buf, off, now))
      ensures old(IndexSaved()) ==> IndexSaved()
    {
      hide BlobsOf, PutBlobs, PatchedBlobs, DiskSum, RecordOf, SaveRecord, TextMeta.IndexFile;
      if |buf| == 0 {
        return Done(0);
      }
      var p := Norm(path);
      var id := meta.Find(p);
      if id == "" {
        return ENOENT;
      }
      var rec := meta.Load(id);
      match rec
      case NoFile => r := ENOENT;
      case Unparsable => r := Thrown;
      case Found(m) =>
        ghost var f := TableOf(State(), id, m);
        ghost var g := Written(L, f, buf, off);
        WriteChunks(id, m.nChunks, buf, off, f);
        PutBlobsOf(old(store.files), id, g.blobs, id);
        var n := Max(m.nChunks, (off + |buf| - 1) / L.C + 1);
        var total := store.SumDiskSizes(id, n);
        meta.Save(m.(nChunks := n, logicalSize := Max(m.logicalSize, off + |buf|), compressedSize := total,
                     mtime := now, ctime := now));
        r := Done(|buf|);
    }

    /** The three branches of `cfs_truncate` on the chunk files and the record. */
    method CutFile(id: string, m: FileMeta, ns: nat, ghost f: File) returns (m': FileMeta)
      requires Valid() && f == File(m.logicalSize, m.nChunks, m.compressedSize, BlobsOf(store.files, id))
      modifies store
      ensures var g := Truncated(L, f, ns);
              && store.files == PutBlobs(old(store.files), id, g.blobs)
              && m' == m.(nChunks := g.n, logicalSize := g.size, compressedSize := g.csize)
    {
      hide PutBlobs, BlobsOf, CutBlobs, RemoveChunks;
      ghost var g := Truncated(L, f, ns);
      if ns == 0 {
        store.RemoveFrom(id, 0, m.nChunks);
        PutCut(old(store.files), id, 0, f.n);
        m' := m.(nChunks := 0, logicalSize := 0, compressedSize := 0);
      } else if ns < m.logicalSize {
        var keep := CeilDiv(ns, L.C);
        store.RemoveFrom(id, keep, m.nChunks);
        PutCut(old(store.files), id, keep, f.n);
        PutBlobsOf(old(store.files), id, g.blobs, id);
        var total := store.SumDiskSizes(id, keep);
        m' := m.(nChunks := keep, logicalSize := ns, compressedSize := total);
      } else {
        PutSame(store.files, id);
        m' := m.(logicalSize := ns);
      }
    }

    method CfsTruncate(path: string, ns: nat, now: int) returns (r: Status)
      requires Valid()
      modifies meta, store
      ensures (State(), r) == ApplyOn(L, old(State()), Truncate(path, ns, now))
      ensures old(IndexSaved()) ==> IndexSaved()
    {
      hide PutBlobs, BlobsOf, Truncated, RecordOf, SaveRecord, TextMeta.IndexFile;
      var p := Norm(path);
      var id := meta.Find(p);
      if id == "" {
        return ENOENT;
      }
      var rec := meta.Load(id);
      match rec
      case NoFile => r := ENOENT;
      case Unparsable => r := Thrown;
      case Found(m) =>
        var m' := CutFile(id, m, ns, TableOf(State(), id, m));
        meta.Save(m'.(mtime := now, ctime := now));
        r := Done(0);
    }

    /** The removal of a file's chunks, record and index entry. */
    method DropFile(p: string, id: string, n: nat)
      modifies meta, store
      ensures State() == Dropped(old(State()), p, id, n) && IndexSaved()
    {
      store.RemoveFrom(id, 0, n);
      meta.Remove(id);
      meta.IndexRemove(p);
    }

    method CfsUnlink(path: string) returns (r: Status)
      modifies meta, store
      ensures (State(), r) == ApplyOn(L, old(State()), Unlink(path))
      ensures old(IndexSaved()) ==> IndexSaved()
    {
      hide RecordOf, Dropped, TextMeta.IndexFile;
      var p := Norm(path);
      var id := meta.Find(p);
      if id == "" {
        return ENOENT;
      }
      var rec := meta.Load(id);
      if rec == Unparsable {
        return Thrown;
      }
      DropFile(p, id, if rec.Found? then rec.m.nChunks else 0);
      r := Done(0);
    }

    method CfsRename(from: string, to: string) returns (r: Status)
      modifies meta, store
      ensures (State(), r) == ApplyOn(L, old(State()), Rename(from, to))
      ensures old(IndexSaved()) ==> IndexSaved()
    {
      hide RecordOf, Dropped, SaveRecord, TextMeta.IndexFile;
      var fp, tp := Norm(from), Norm(to);
      var oid := meta.Find(fp);
      if oid == "" {
        return ENOENT;
      }
      var eid := meta.Find(tp);
      if eid != "" {
        var em := meta.Load(eid);
        if em == Unparsable {
          return Thrown;
        }
        DropFile(tp, eid, if em.Found? then em.m.nChunks else 0);
      }
      var rec := meta.Load(oid);
      if rec == Unparsable {
        return Thrown;
      }
      var m := if rec.Found? then rec.m else DEFAULT_META;
      meta.Save(m.(logicalPath := tp));
      meta.IndexRemove(fp);
      meta.IndexAdd(tp, oid);
      r := Done(0);
    }

    /** One read task on an empty slot. */
    method CollectOne(id: string, ci: nat) returns (slot: seq<byte>, failed: bool)
      requires Valid()
      ensures failed <==> Undecodable(L, BlobsOf(store.files, id), ci)
      ensures !failed ==> Collected(L, BlobsOf(store.files, id), ci, slot)
    {
      hide BlobsOf, Zeros;
      BlobAt(store.files, id, ci);
      CollectedIs(L, BlobsOf(store.files, id), ci, Zeros(L.C));
      var sz := store.ChunkDiskSize(id, ci);
      if sz == 0 {
        return Zeros(L.C), false;
      }
      var dsz, out := store.ReadChunk(id, ci, []);
      assert dsz != 0 ==> out == L.z.decompress(store.files[(id, ci)]).value;
      slot, failed := out, dsz == 0;
    }

    /** The read tasks, here in the order they are enqueued, with the shared error flag. */
    method CollectChunks(id: string, fc: nat, nc: nat) returns (cdata: array<seq<byte>>, err: bool)
      requires Valid()
      ensures fresh(cdata) && cdata.Length == nc
      ensures err <==> exists i: nat :: fc <= i < fc + nc && Undecodable(L, BlobsOf(store.files, id), i)
      ensures !err ==> forall i: nat :: i < nc ==> Collected(L, BlobsOf(store.files, id), fc + i, cdata[i])
    {
      hide BlobsOf, Undecodable, Collected;
      cdata := new seq<byte>[nc](_ => []);
      err := false;
      ghost var blobs := BlobsOf(store.files, id);
      var i := 0;
      while i < nc
        invariant 0 <= i <= nc
        invariant err <==> exists j: nat :: fc <= j < fc + i && Undecodable(L, blobs, j)
        invariant !err ==> forall j: nat :: j < i ==> Collected(L, blobs, fc + j, cdata[j])
      {
        if !err {
          cdata[i], err := CollectOne(id, fc + i);
        }
        i := i + 1;
      }
    }

    /** One turn of the packing loop: what part `i` gives goes behind what is packed. */
    method PackOne(cdata: seq<seq<byte>>, i: nat, off: nat, want: nat, buf: array<byte>, written: nat,
                   ghost p: Packing)
        returns (take: nat)
      requires i < |cdata| && off < |cdata[i]| && want <= buf.Length
      requires Packed(p, buf[..], cdata[i..], off, want, written)
      modifies buf
      ensures take == Min(|cdata[i]| - off, want - written)
      ensures Packed(p, buf[..], cdata[i + 1..], 0, want, written + take)
    {
      hide Assemble;
      take := Min(|cdata[i]| - off, want - written);
      PackStep(p.all[..written], cdata, i, off, want - written);
      MemcpyNext(buf, written, cdata[i], off, take, p.all[..written], p.start);
      PackedNext(p, cdata, i, off, want, written, take);
    }

    /** The packing loop into the caller's buffer. */
    method Pack(cdata: seq<seq<byte>>, skip: nat, want: nat, buf: array<byte>) returns (written: nat)
      requires want <= buf.Length
      modifies buf
      ensures written == |Assemble(cdata, skip, want)| <= want
      ensures buf[..] == Assemble(cdata, skip, want) + old(buf[..])[written..]
    {
      hide Assemble, Packed;
      written := 0;
      var i := 0;
      ghost var p := Packing(Assemble(cdata, skip, want), buf[..]);
      PackedFirst(p, cdata, skip, want);
      while i < |cdata|
        invariant 0 <= i <= |cdata| && Packed(p, buf[..], cdata[i..], if i == 0 then skip else 0, want, written)
      {
        var off := if i == 0 then skip else 0;
        if off >= |cdata[i]| {
          PackedLast(p, buf[..], cdata[i..], off, want, written);
          return;
        }
        var take := PackOne(cdata, i, off, want, buf, written, p);
        written := written + take;
        i := i + 1;
      }
      PackedLast(p, buf[..], cdata[i..], if i == 0 then skip else 0, want, written);
    }

    /** The text of the statistics path; `ratio` is how the stream prints the quotient of the totals. */
    method StatsContent(ratio: (nat, nat) -> string) returns (r: Option<seq<byte>>)
      ensures r == StatsBytes(ratio, State())
    {
      var sums := Stats.AccumulateStats(meta.index, meta.texts);
      if sums == None {
        return None;
      }
      var quotient := ratio(sums.value.logical, sums.value.compressed);
      r := Some(Stats.AsBytes(Stats.StatsText(sums.value, quotient)));
    }

    method CfsRead(path: string, buf: array<byte>, size: nat, off: nat, ratio: (nat, nat) -> string)
      returns (r: ReadResult)
      requires Valid() && size <= buf.Length
      modifies buf
      ensures r == ReadOn(L, ratio, State(), path, size, off)
      ensures 0 < off + size ==>
                (r == IoError <==> Norm(path) != STATS_VPATH && Breaks(L, State(), Norm(path), size, off))
      ensures r.Data? ==> |r.bytes| <= buf.Length && buf[..] == r.bytes + old(buf[..])[|r.bytes|..]
      ensures !r.Data? ==> buf[..] == old(buf[..])
    {
      hide StatsBytes, ReadFileOn, Breaks;
      if 0 < off + size {
        ReadOnFailsIff(L, ratio, State(), path, size, off);
      }
      var p := Norm(path);
      if p == STATS_VPATH {
        var text := StatsContent(ratio);
        if text == None {
          return ReadThrown;
        }
        r := CopySlice(text.value, buf, size, off);
      } else {
        r := ReadPath(p, buf, size, off);
      }
    }

    method CopySlice(text: seq<byte>, buf: array<byte>, size: nat, off: nat) returns (r: ReadResult)
      requires size <= buf.Length
      modifies buf
      ensures r == Data(Slice(text, off, size)) && |r.bytes| <= buf.Length
      ensures buf[..] == r.bytes + old(buf[..])[|r.bytes|..]
    {
      if off >= |text| {
        return Data([]);
      }
      var n := Min(size, |text| - off);
      Memcpy(buf, 0, text, off, n);
      assert buf[..] == text[off..off + n] + old(buf[..])[n..];
      r := Data(text[off..off + n]);
    }

    method ReadPath(p: string, buf: array<byte>, size: nat, off: nat) returns (r: ReadResult)
      requires Valid() && size <= buf.Length
      modifies buf
      ensures r == ReadFileOn(L, State(), p, size, off)
      ensures r.Data? ==> |r.bytes| <= buf.Length && buf[..] == r.bytes + old(buf[..])[|r.bytes|..]
      ensures !r.Data? ==> buf[..] == old(buf[..])
    {
      hide RecordOf, ReadFile;
      var id := meta.Find(p);
      if id == "" {
        return NoEntry;
      }
      var rec := meta.Load(id);
      match rec
      case NoFile => r := NoEntry;
      case Unparsable => r := ReadThrown;
      case Found(m) =>
        LoadedSize(meta.texts, id);
        r := ReadChunks(id, m, buf, size, off);
    }

    /** The read of a loaded file; the chunk count is computed in 64 bits. */
    method ReadChunks(id: string, m: FileMeta, buf: array<byte>, size: nat, off: nat) returns (r: ReadResult)
      requires Valid() && size <= buf.Length && m.logicalSize < TWO_64
      modifies buf
      ensures r == ReadFile(L, TableOf(State(), id, m), size, off)
      ensures r.Data? ==> |r.bytes| <= buf.Length && buf[..] == r.bytes + old(buf[..])[|r.bytes|..]
      ensures !r.Data? ==> buf[..] == old(buf[..])
    {
      hide BlobsOf, Assemble, Fetched, Values, BufferCount, ChunkSpan, Undecodable, Collected;
      if off >= m.logicalSize {
        return Data([]);
      }
      var want := Min(size, m.logicalSize - off);
      var fc := off / L.C;
      var nc := BufferCount(L.C, off, want);
      BufferCountIs(L.C, off, want);
      ChunkOf(off, fc, L.C);
      if off + want == 0 && 1 < nc {
        return AllocFailure(nc);
      }
      var cdata, err := CollectChunks(id, fc, nc);
      FetchedFailsIff(L, BlobsOf(store.files, id), fc, nc);
      if err {
        return IoError;
      }
      PartsCollected(L, BlobsOf(store.files, id), fc, cdata[..]);
      var written := Pack(cdata[..], off - fc * L.C, want, buf);
      r := Data(buf[..written]);
    }
  }

  lemma LoadedSize(texts: map<string, string>, id: string)
    ensures LoadRecord(texts, id).Found? ==> LoadRecord(texts, id).m.logicalSize < TWO_64
  {
    if LoadRecord(texts, id).Found? {
      var ts := TextMeta.Tokens(texts[id]);
      hide TextMeta.LoadTokens, TextMeta.Tokens;
      TextMeta.LoadedBounded(ts, DEFAULT_META);
    }
  }
}
