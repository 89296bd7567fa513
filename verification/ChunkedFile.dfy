/** One file of the mount as its chunk table stores it, and when such a table means a flat byte string. */
module ChunkedFile {
  import opened Bytes

  /** The codec and the chunk size `CHUNK_SIZE`, here any positive number. */
  datatype Layout = Layout(z: Codec, C: pos)

  /**
   A logical size, a chunk count, the recorded compressed size, and the compressed blobs by chunk index. A chunk may be
   missing (a hole), shorter than the chunk size, or longer than the logical size asks for.
   */
  datatype File = File(size: nat, n: nat, csize: nat, blobs: map<nat, seq<byte>>)

  const EMPTY := File(0, 0, 0, map[])

  // ---------------------------------------------------------------- arithmetic of chunk indices

  lemma MulMono(a: nat, b: nat, C: pos)
    ensures a < b ==> a * C + C <= b * C
    ensures a <= b ==> a * C <= b * C
  {
    if a < b {
      assert (a + 1) * C <= b * C;
    }
  }

  lemma MulSub(a: nat, b: nat, C: pos)
    requires b <= a
    ensures (a - b) * C == a * C - b * C
  {
  }

  lemma ChunkOf(p: nat, ci: nat, C: pos)
    ensures p / C == ci <==> ci * C <= p < ci * C + C
    ensures p / C == ci ==> p % C == p - ci * C
  {
    assert p == (p / C) * C + p % C;
    MulMono(p / C, ci, C);
    MulMono(ci, p / C, C);
  }

  lemma DivMono(p: nat, q: nat, C: pos)
    requires p <= q
    ensures p / C <= q / C
  {
    ChunkOf(p, p / C, C);
    ChunkOf(q, q / C, C);
    MulMono(q / C, p / C, C);
  }

  /** The number of chunks that `size` bytes occupy. */
  function CeilDiv(size: nat, C: pos): nat
  {
    (size + C - 1) / C
  }

  lemma CeilDivBounds(size: nat, C: pos)
    ensures size <= CeilDiv(size, C) * C < size + C
  {
    ChunkOf(size + C - 1, CeilDiv(size, C), C);
  }

  lemma CeilDivIs(size: nat, i: nat, C: pos)
    ensures i < CeilDiv(size, C) <==> i * C < size
  {
    CeilDivBounds(size, C);
    MulMono(i, CeilDiv(size, C), C);
    MulMono(CeilDiv(size, C), i, C);
  }

  lemma CeilDivStep(size: nat, C: pos)
    ensures CeilDiv(size + C, C) == CeilDiv(size, C) + 1
    ensures 0 < size <= C ==> CeilDiv(size, C) == 1
  {
    var n := CeilDiv(size, C);
    ChunkOf(size + C - 1, n, C);
    assert (n + 1) * C == n * C + C;
    ChunkOf(size + C + C - 1, n + 1, C);
    ChunkOf(size + C - 1, 1, C);
  }

  // ---------------------------------------------------------------- what a table stores

  /** `read_chunk` on the bytes of one chunk file; [] is its failure result 0. */
  function Decoded(L: Layout, blob: seq<byte>): seq<byte>
  {
    match L.z.decompress(blob)
    case Some(d) => if |d| <= 2 * L.C then d else []
    case None => []
  }

  function Chunk(L: Layout, f: File, i: nat): seq<byte>
  {
    if i in f.blobs then Decoded(L, f.blobs[i]) else []
  }

  /** The stored byte at file position `p`, and 0 where nothing is stored. */
  function ByteAt(L: Layout, f: File, p: nat): byte
  {
    var c := Chunk(L, f, p / L.C);
    if p % L.C < |c| then c[p % L.C] else 0
  }

  /** The byte string a file stands for. */
  function Flat(L: Layout, f: File): (s: seq<byte>)
    ensures |s| == f.size
  {
    seq(f.size, p requires 0 <= p < f.size => ByteAt(L, f, p))
  }

  function DiskSize(blobs: map<nat, seq<byte>>, i: nat): nat
  {
    if i in blobs then |blobs[i]| else 0
  }

  function DiskSum(blobs: map<nat, seq<byte>>, n: nat): nat
  {
    if n == 0 then 0 else DiskSum(blobs, n - 1) + DiskSize(blobs, n - 1)
  }

  ghost predicate GoodChunk(L: Layout, f: File, i: nat)
  {
    i in f.blobs ==> i < f.n && 0 < |f.blobs[i]| && 0 < |Chunk(L, f, i)| <= L.C
  }

  /** Every stored chunk decodes, is inside the table, and the recorded compressed size is the sum on disk. */
  ghost predicate WellFormed(L: Layout, f: File)
  {
    && (forall i: nat :: GoodChunk(L, f, i))
    && f.n <= CeilDiv(f.size, L.C)
    && f.csize == DiskSum(f.blobs, f.n)
  }

  /** No nonzero byte is stored at or past position `p`, up to position `q`. */
  ghost predicate ZeroRange(L: Layout, f: File, p: nat, q: nat)
  {
    forall k: nat :: p <= k < q ==> ByteAt(L, f, k) == 0
  }

  ghost predicate CleanTail(L: Layout, f: File)
  {
    forall p: nat :: f.size <= p ==> ByteAt(L, f, p) == 0
  }

  /** Chunk `i` is stored, and reaches its own end or the end of the file. */
  ghost predicate Covered(L: Layout, f: File, i: nat)
  {
    i in f.blobs && |Chunk(L, f, i)| >= Min(L.C, f.size - i * L.C)
  }

  /** Every chunk before the last is stored full, and the last one covers the rest of the file. */
  ghost predicate Dense(L: Layout, f: File)
  {
    f.n == CeilDiv(f.size, L.C) && forall i: nat :: i < f.n ==> Covered(L, f, i)
  }

  // ---------------------------------------------------------------- write

  predicate Touched(C: pos, off: nat, len: nat, ci: nat)
  {
    off / C <= ci && 0 < len && ci <= (off + len - 1) / C
  }

  /** What a touched chunk holds after a write, position by position. */
  function Patched(L: Layout, f: File, buf: seq<byte>, off: nat, ci: nat): (c: seq<byte>)
    requires Touched(L.C, off, |buf|, ci)
    ensures 0 < |c| <= L.C
  {
    var stored := if ci < f.n then Chunk(L, f, ci) else [];
    var el := Min(|stored|, L.C);
    ChunkOf(off + |buf| - 1, (off + |buf| - 1) / L.C, L.C);
    assert ci * L.C <= ((off + |buf| - 1) / L.C) * L.C;
    var we := Min(L.C, off + |buf| - ci * L.C);
    seq(Max(el, we), j requires 0 <= j < Max(el, we) =>
      var p := ci * L.C + j;
      if off <= p < off + |buf| then buf[p - off] else if j < el then stored[j] else 0)
  }

  function TouchedSet(C: pos, off: nat, len: nat): set<nat>
  {
    set ci: nat | ci < (off + len) / C + 1 && Touched(C, off, len, ci)
  }

  lemma TouchedSetIs(C: pos, off: nat, len: nat)
    ensures forall ci: nat :: ci in TouchedSet(C, off, len) <==> Touched(C, off, len, ci)
  {
    if 0 < len {
      DivMono(off + len - 1, off + len, C);
    }
  }

  /** The chunk files that a write stores. */
  function PatchedBlobs(L: Layout, f: File, buf: seq<byte>, off: nat): map<nat, seq<byte>>
  {
    map ci: nat | ci in TouchedSet(L.C, off, |buf|) :: ci := L.z.compress(Patched(L, f, buf, off, ci))
  }

  /** The file after `cfs_write` of a nonempty buffer. */
  function Written(L: Layout, f: File, buf: seq<byte>, off: nat): File
    requires 0 < |buf|
  {
    var blobs := f.blobs + PatchedBlobs(L, f, buf, off);
    var n := Max(f.n, (off + |buf| - 1) / L.C + 1);
    File(Max(f.size, off + |buf|), n, DiskSum(blobs, n), blobs)
  }

  lemma WrittenChunk(L: Layout, f: File, buf: seq<byte>, off: nat, ci: nat)
    requires 0 < |buf|
    ensures Touched(L.C, off, |buf|, ci) ==>
              && ci in Written(L, f, buf, off).blobs
              && Chunk(L, Written(L, f, buf, off), ci) == Patched(L, f, buf, off, ci)
    ensures !Touched(L.C, off, |buf|, ci) ==>
              && (ci in Written(L, f, buf, off).blobs <==> ci in f.blobs)
              && (ci in f.blobs ==> Written(L, f, buf, off).blobs[ci] == f.blobs[ci])
              && Chunk(L, Written(L, f, buf, off), ci) == Chunk(L, f, ci)
  {
    TouchedSetIs(L.C, off, |buf|);
  }

  lemma PatchedByteAt(L: Layout, f: File, buf: seq<byte>, off: nat, ci: nat, j: nat)
    requires WellFormed(L, f) && Touched(L.C, off, |buf|, ci) && j < L.C
    ensures var p, c, q := ci * L.C + j, Chunk(L, f, ci), Patched(L, f, buf, off, ci);
            (if j < |q| then q[j] else 0) ==
            if off <= p < off + |buf| then buf[p - off] else if j < |c| then c[j] else 0
  {
    assert GoodChunk(L, f, ci);
  }

  lemma CoveredIsTouched(C: pos, off: nat, len: nat, p: nat)
    requires off <= p < off + len
    ensures Touched(C, off, len, p / C)
  {
    DivMono(off, p, C);
    DivMono(p, off + len - 1, C);
  }

  /** A write changes exactly the positions it covers, and stores the buffer there. */
  lemma WrittenByteAt(L: Layout, f: File, buf: seq<byte>, off: nat, p: nat)
    requires 0 < |buf| && WellFormed(L, f)
    ensures ByteAt(L, Written(L, f, buf, off), p) ==
            if off <= p < off + |buf| then buf[p - off] else ByteAt(L, f, p)
  {
    hide Written, Patched, PatchedBlobs, Decoded, WellFormed;
    var ci := p / L.C;
    ChunkOf(p, ci, L.C);
    WrittenChunk(L, f, buf, off, ci);
    if Touched(L.C, off, |buf|, ci) {
      PatchedByteAt(L, f, buf, off, ci, p % L.C);
    } else if off <= p < off + |buf| {
      CoveredIsTouched(L.C, off, |buf|, p);
    }
  }

  lemma WrittenWellFormed(L: Layout, f: File, buf: seq<byte>, off: nat)
    requires 0 < |buf| && WellFormed(L, f)
    ensures WellFormed(L, Written(L, f, buf, off))
  {
    var g := Written(L, f, buf, off);
    forall i: nat ensures GoodChunk(L, g, i) {
      assert GoodChunk(L, f, i);
      WrittenChunk(L, f, buf, off, i);
    }
    ChunksCovered(L, f, off + |buf| - 1, g.size);
  }

  lemma ChunksCovered(L: Layout, f: File, last: nat, size: nat)
    requires f.n <= CeilDiv(f.size, L.C) && f.size <= size && last < size
    ensures Max(f.n, last / L.C + 1) <= CeilDiv(size, L.C)
  {
    DivMono(f.size + L.C - 1, size + L.C - 1, L.C);
    ChunkOf(last, last / L.C, L.C);
    CeilDivIs(size, last / L.C, L.C);
  }

  lemma SplicedAt(s: seq<byte>, buf: seq<byte>, off: nat, p: nat)
    requires 0 < |buf| && p < Max(|s|, off + |buf|)
    ensures |Spliced(s, buf, off)| == Max(|s|, off + |buf|)
    ensures Spliced(s, buf, off)[p] ==
            if off <= p < off + |buf| then buf[p - off] else if p < |s| then s[p] else 0
  {
  }

  /**
   The sparse refinement: a write is the POSIX splice exactly when no stale nonzero byte is stored in the gap
   between the old end and the write. A clean tail (or an offset within the file) is enough.
   */
  lemma WriteRefines(L: Layout, f: File, buf: seq<byte>, off: nat)
    requires 0 < |buf| && WellFormed(L, f)
    ensures Flat(L, Written(L, f, buf, off)) == Spliced(Flat(L, f), buf, off) <==> ZeroRange(L, f, f.size, off)
    ensures CleanTail(L, f) ==> ZeroRange(L, f, f.size, off) && CleanTail(L, Written(L, f, buf, off))
  {
    hide PatchedBlobs, Patched, Decoded, Chunk, WellFormed, DiskSum, Spliced;
    var g := Written(L, f, buf, off);
    var flat, want := Flat(L, g), Spliced(Flat(L, f), buf, off);
    forall p: nat ensures ByteAt(L, g, p) == if off <= p < off + |buf| then buf[p - off] else ByteAt(L, f, p) {
      WrittenByteAt(L, f, buf, off, p);
    }
    SplicedAt(Flat(L, f), buf, off, 0);
    forall p: nat | p < g.size
      ensures flat[p] == want[p] <==> (f.size <= p < off ==> ByteAt(L, f, p) == 0)
    {
      SplicedAt(Flat(L, f), buf, off, p);
    }
    if flat == want {
      forall p: nat | f.size <= p < off ensures ByteAt(L, f, p) == 0 {
        assert flat[p] == want[p];
      }
    }
  }

  // ---------------------------------------------------------------- truncate

  /** The chunks left when those from `keep` up to `n` are removed. */
  function CutBlobs(blobs: map<nat, seq<byte>>, keep: nat, n: nat): map<nat, seq<byte>>
  {
    map i | i in blobs && !(keep <= i < n) :: blobs[i]
  }

  /** The file after `cfs_truncate`; a partial shrink leaves the last kept chunk as it is. */
  function Truncated(L: Layout, f: File, ns: nat): File
  {
    if ns == 0 then
      File(0, 0, 0, CutBlobs(f.blobs, 0, f.n))
    else if ns < f.size then
      var keep := CeilDiv(ns, L.C);
      var blobs := CutBlobs(f.blobs, keep, f.n);
      File(ns, keep, DiskSum(blobs, keep), blobs)
    else
      f.(size := ns)
  }

  /** The end of the chunk that position `ns` cuts: what lies from `ns` to here is not trimmed. */
  function CutEnd(L: Layout, f: File, ns: nat): nat
  {
    Min(CeilDiv(ns, L.C) * L.C, f.size)
  }

  lemma TruncatedByteAt(L: Layout, f: File, ns: nat, p: nat)
    requires WellFormed(L, f)
    ensures ByteAt(L, Truncated(L, f, ns), p) ==
            if ns < f.size && CeilDiv(ns, L.C) * L.C <= p then 0 else ByteAt(L, f, p)
  {
    var ci, keep := p / L.C, CeilDiv(ns, L.C);
    assert GoodChunk(L, f, ci);
    ChunkOf(p, ci, L.C);
    ChunkOf(L.C - 1, 0, L.C);
    MulMono(keep, ci, L.C);
    MulMono(ci, keep, L.C);
  }

  lemma TruncatedWellFormed(L: Layout, f: File, ns: nat)
    requires WellFormed(L, f)
    ensures WellFormed(L, Truncated(L, f, ns))
  {
    var g := Truncated(L, f, ns);
    forall i: nat ensures GoodChunk(L, g, i) {
      assert GoodChunk(L, f, i);
    }
    if ns >= f.size {
      DivMono(f.size + L.C - 1, ns + L.C - 1, L.C);
    }
  }

  /** A shrink always yields the prefix; a growth yields zero fill exactly when no stale byte is stored there. */
  lemma TruncateRefines(L: Layout, f: File, ns: nat)
    requires WellFormed(L, f)
    ensures Flat(L, Truncated(L, f, ns)) == Resized(Flat(L, f), ns) <==> ZeroRange(L, f, f.size, ns)
  {
    var g := Truncated(L, f, ns);
    var flat, want := Flat(L, g), Resized(Flat(L, f), ns);
    CeilDivBounds(ns, L.C);
    forall p: nat | p < ns
      ensures flat[p] == want[p] <==> (f.size <= p ==> ByteAt(L, f, p) == 0)
    {
      TruncatedByteAt(L, f, ns, p);
    }
    if flat == want {
      forall p: nat | f.size <= p < ns ensures ByteAt(L, f, p) == 0 {
        assert flat[p] == want[p];
      }
    }
  }

  /**
   A truncate keeps the tail clean exactly when the flat file is already zero from the new size to the end of
   the chunk that the new size cuts: always for a growth, for 0, and for a multiple of the chunk size.
   */
  lemma TruncateCleanTail(L: Layout, f: File, ns: nat)
    requires WellFormed(L, f) && CleanTail(L, f)
    ensures CleanTail(L, Truncated(L, f, ns)) <==> ZeroRange(L, f, ns, CutEnd(L, f, ns))
    ensures ns >= f.size || ns % L.C == 0 ==> ZeroRange(L, f, ns, CutEnd(L, f, ns))
  {
    var g := Truncated(L, f, ns);
    forall p: nat ensures ByteAt(L, g, p) == if ns < f.size && CeilDiv(ns, L.C) * L.C <= p then 0 else ByteAt(L, f, p) {
      TruncatedByteAt(L, f, ns, p);
    }
    CeilDivBounds(ns, L.C);
    if ns % L.C == 0 {
      ChunkOf(ns, ns / L.C, L.C);
      ChunkOf(ns + L.C - 1, ns / L.C, L.C);
    }
    if CleanTail(L, g) {
      forall k: nat | ns <= k < CutEnd(L, f, ns) ensures ByteAt(L, f, k) == 0 {
        assert ByteAt(L, g, k) == 0;
      }
    }
  }

  // ---------------------------------------------------------------- the dense family

  /** A write may start here without leaving a gap: in a stored chunk, or right behind a full last chunk. */
  ghost predicate NoGap(L: Layout, f: File, off: nat)
  {
    off / L.C < f.n || (off / L.C == f.n && (f.n == 0 || |Chunk(L, f, f.n - 1)| == L.C))
  }

  lemma OffsetInFileLeavesNoGap(L: Layout, f: File, off: nat)
    requires WellFormed(L, f) && Dense(L, f) && off <= f.size
    ensures NoGap(L, f, off)
  {
    CeilDivBounds(f.size, L.C);
    ChunkOf(off, off / L.C, L.C);
    MulMono(f.n, off / L.C, L.C);
    if off / L.C >= f.n {
      ChunkOf(off, f.n, L.C);
      if f.n > 0 {
        assert GoodChunk(L, f, f.n - 1) && Covered(L, f, f.n - 1);
        assert (f.n - 1) * L.C == f.n * L.C - L.C;
      }
    }
  }

  lemma DenseBefore(L: Layout, f: File, i: nat)
    requires WellFormed(L, f) && Dense(L, f) && i + 1 < f.n
    ensures |Chunk(L, f, i)| == L.C
  {
    CeilDivIs(f.size, i + 1, L.C);
    assert (i + 1) * L.C == i * L.C + L.C;
    assert GoodChunk(L, f, i) && Covered(L, f, i);
  }

  lemma PatchedCovers(L: Layout, f: File, buf: seq<byte>, off: nat, i: nat)
    requires 0 < |buf| && WellFormed(L, f) && Dense(L, f) && Touched(L.C, off, |buf|, i)
    ensures Covered(L, Written(L, f, buf, off), i)
  {
    WrittenChunk(L, f, buf, off, i);
    assert GoodChunk(L, f, i) && (i < f.n ==> Covered(L, f, i));
    CeilDivIs(f.size, i, L.C);
    ChunkOf(off + |buf| - 1, (off + |buf| - 1) / L.C, L.C);
    MulMono(i, (off + |buf| - 1) / L.C, L.C);
  }

  lemma FullBefore(L: Layout, f: File, off: nat, i: nat)
    requires WellFormed(L, f) && Dense(L, f) && NoGap(L, f, off) && i < off / L.C
    ensures i < f.n && i in f.blobs && |Chunk(L, f, i)| == L.C
  {
    assert i < f.n;
    assert Covered(L, f, i);
    if i + 1 < f.n {
      DenseBefore(L, f, i);
    }
  }

  lemma NothingAfter(C: pos, size: nat, n: nat, last: nat, i: nat)
    requires n == CeilDiv(size, C) && last / C < i < n
    ensures last < size
  {
    ChunkOf(last, last / C, C);
    MulMono(last / C, i, C);
    CeilDivIs(size, i, C);
  }

  lemma UntouchedCovers(L: Layout, f: File, buf: seq<byte>, off: nat, i: nat)
    requires 0 < |buf| && WellFormed(L, f) && Dense(L, f) && NoGap(L, f, off)
    requires !Touched(L.C, off, |buf|, i) && i < Written(L, f, buf, off).n
    ensures Covered(L, Written(L, f, buf, off), i)
  {
    WrittenChunk(L, f, buf, off, i);
    if i < off / L.C {
      FullBefore(L, f, off, i);
    } else {
      NothingAfter(L.C, f.size, f.n, off + |buf| - 1, i);
      assert Covered(L, f, i);
    }
  }

  lemma ChunkCount(f: File, C: pos, last: nat)
    requires f.n == CeilDiv(f.size, C)
    ensures Max(f.n, last / C + 1) == CeilDiv(Max(f.size, last + 1), C)
  {
    var lc, size := last / C, Max(f.size, last + 1);
    ChunkOf(last, lc, C);
    CeilDivIs(size, lc, C);
    CeilDivIs(size, lc + 1, C);
    assert (lc + 1) * C == lc * C + C;
    DivMono(f.size + C - 1, size + C - 1, C);
  }

  /**
   A write keeps the table dense exactly when it leaves no gap before it; a write at an offset within the file
   never does.
   */
  lemma WriteDense(L: Layout, f: File, buf: seq<byte>, off: nat)
    requires 0 < |buf| && WellFormed(L, f) && Dense(L, f)
    ensures Dense(L, Written(L, f, buf, off)) <==> NoGap(L, f, off)
    ensures off <= f.size ==> Dense(L, Written(L, f, buf, off))
  {
    var g := Written(L, f, buf, off);
    ChunkCount(f, L.C, off + |buf| - 1);
    if off <= f.size {
      OffsetInFileLeavesNoGap(L, f, off);
    }
    if NoGap(L, f, off) {
      forall i: nat | i < g.n ensures Covered(L, g, i) {
        if Touched(L.C, off, |buf|, i) {
          PatchedCovers(L, f, buf, off, i);
        } else {
          UntouchedCovers(L, f, buf, off, i);
        }
      }
    } else {
      GapIsNotDense(L, f, buf, off);
    }
  }

  /** A chunk that a write leaves behind it missing or short. */
  lemma GapIsNotDense(L: Layout, f: File, buf: seq<byte>, off: nat)
    requires 0 < |buf| && WellFormed(L, f) && Dense(L, f) && !NoGap(L, f, off)
    ensures !Dense(L, Written(L, f, buf, off))
  {
    hide PatchedBlobs, Patched, Decoded, DiskSum, CeilDiv;
    var g := Written(L, f, buf, off);
    DivMono(off, off + |buf| - 1, L.C);
    var i := if off / L.C > f.n then f.n else f.n - 1;
    WrittenChunk(L, f, buf, off, i);
    assert GoodChunk(L, f, i);
    if i == f.n - 1 {
      ShortBefore(L, g, i, off);
    } else {
      assert !Covered(L, g, i);
    }
    assert i < g.n;
  }

  lemma ShortBefore(L: Layout, g: File, i: nat, off: nat)
    requires off / L.C == i + 1 && off < g.size && |Chunk(L, g, i)| < L.C
    ensures !Covered(L, g, i)
  {
    ChunkOf(off, i + 1, L.C);
    MulSub(i + 1, i, L.C);
  }

  /** A truncate keeps the table dense exactly when it does not grow the file past what the last chunk stores. */
  lemma TruncateDense(L: Layout, f: File, ns: nat)
    requires WellFormed(L, f) && Dense(L, f)
    ensures Dense(L, Truncated(L, f, ns)) <==>
            ns <= f.size || (0 < f.n && ns <= (f.n - 1) * L.C + |Chunk(L, f, f.n - 1)|)
  {
    var g := Truncated(L, f, ns);
    ChunkOf(L.C - 1, 0, L.C);
    if ns < f.size {
      DivMono(ns + L.C - 1, f.size + L.C - 1, L.C);
      forall i: nat | i < g.n ensures Covered(L, g, i) {
        assert Covered(L, f, i);
      }
    } else if ns > f.size {
      GrowDense(L, f, ns);
    }
  }

  lemma GrowDense(L: Layout, f: File, ns: nat)
    requires WellFormed(L, f) && Dense(L, f) && f.size < ns
    ensures Dense(L, f.(size := ns)) <==> 0 < f.n && ns <= (f.n - 1) * L.C + |Chunk(L, f, f.n - 1)|
  {
    var g := f.(size := ns);
    CeilDivIs(ns, 0, L.C);
    if 0 < f.n {
      assert GoodChunk(L, f, f.n - 1) && Covered(L, f, f.n - 1);
      assert (f.n - 1) * L.C == f.n * L.C - L.C;
      CeilDivIs(ns, f.n, L.C);
      DivMono(f.size + L.C - 1, ns + L.C - 1, L.C);
      if ns <= (f.n - 1) * L.C + |Chunk(L, f, f.n - 1)| {
        forall i: nat | i < g.n ensures Covered(L, g, i) {
          assert GoodChunk(L, f, i) && Covered(L, f, i);
          if i + 1 < f.n {
            DenseBefore(L, f, i);
          }
        }
      } else {
        assert !(f.n == CeilDiv(ns, L.C) && Covered(L, g, f.n - 1));
      }
    }
  }
}
