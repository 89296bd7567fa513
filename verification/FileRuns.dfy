/** Whole runs of writes and truncates on one file, against a flat byte string. */
module FileRuns {
  import opened Bytes
  import opened ChunkedFile
  import opened ChunkedRead

  datatype FileOp = WriteOp(buf: seq<byte>, off: nat) | TruncateOp(ns: nat)

  /** The chunked file after one operation; an empty write returns before it touches anything. */
  function Step(L: Layout, f: File, op: FileOp): File
  {
    match op
    case WriteOp(buf, off) => if |buf| == 0 then f else Written(L, f, buf, off)
    case TruncateOp(ns) => Truncated(L, f, ns)
  }

  /** The POSIX meaning of the same operation. */
  function FlatStep(s: seq<byte>, op: FileOp): seq<byte>
  {
    match op
    case WriteOp(buf, off) => if |buf| == 0 then s else Spliced(s, buf, off)
    case TruncateOp(ns) => Resized(s, ns)
  }

  function Run(L: Layout, f: File, ops: seq<FileOp>): File
    decreases |ops|
  {
    if ops == [] then f else Run(L, Step(L, f, ops[0]), ops[1..])
  }

  function FlatRun(s: seq<byte>, ops: seq<FileOp>): seq<byte>
    decreases |ops|
  {
    if ops == [] then s else FlatRun(FlatStep(s, ops[0]), ops[1..])
  }

  lemma StepWellFormed(L: Layout, f: File, op: FileOp)
    requires WellFormed(L, f)
    ensures WellFormed(L, Step(L, f, op))
  {
    match op
    case WriteOp(buf, off) =>
      if |buf| > 0 {
        WrittenWellFormed(L, f, buf, off);
      }
    case TruncateOp(ns) => TruncatedWellFormed(L, f, ns);
  }

  /** The operation starts within the file, or does not grow it: no gap can appear. */
  predicate InBounds(s: seq<byte>, op: FileOp)
  {
    match op
    case WriteOp(buf, off) => off <= |s|
    case TruncateOp(ns) => ns <= |s|
  }

  predicate InBoundsRun(s: seq<byte>, ops: seq<FileOp>)
    decreases |ops|
  {
    ops == [] || (InBounds(s, ops[0]) && InBoundsRun(FlatStep(s, ops[0]), ops[1..]))
  }

  lemma DenseStep(L: Layout, f: File, op: FileOp)
    requires WellFormed(L, f) && Dense(L, f) && InBounds(Flat(L, f), op)
    ensures Dense(L, Step(L, f, op)) && Flat(L, Step(L, f, op)) == FlatStep(Flat(L, f), op)
  {
    match op
    case WriteOp(buf, off) =>
      if |buf| > 0 {
        WriteDense(L, f, buf, off);
        WriteRefines(L, f, buf, off);
      }
    case TruncateOp(ns) =>
      TruncateDense(L, f, ns);
      TruncateRefines(L, f, ns);
  }

  /**
   Every run of writes at offsets within the file and of truncates that do not grow it keeps the table dense
   and means the flat run; every nonempty read afterwards is the slice of the flat result.
   */
  lemma {:induction false} DenseRun(L: Layout, f: File, ops: seq<FileOp>)
    requires WellFormed(L, f) && Dense(L, f) && InBoundsRun(Flat(L, f), ops)
    ensures WellFormed(L, Run(L, f, ops)) && Dense(L, Run(L, f, ops))
    ensures Flat(L, Run(L, f, ops)) == FlatRun(Flat(L, f), ops)
    ensures forall size: nat, off: nat :: 0 < size ==>
              ReadFile(L, Run(L, f, ops), size, off) == Data(Slice(FlatRun(Flat(L, f), ops), off, size))
    decreases |ops|
  {
    if ops == [] {
      forall size: nat, off: nat | 0 < size
        ensures ReadFile(L, f, size, off) == Data(Slice(Flat(L, f), off, size))
      {
        DenseReadsExact(L, f, size, off);
      }
    } else {
      StepWellFormed(L, f, ops[0]);
      DenseStep(L, f, ops[0]);
      DenseRun(L, Step(L, f, ops[0]), ops[1..]);
    }
  }

  /**
   A truncate is tidy when the flat file is already zero from the new size to the end of the chunk it cuts:
   a growth, a shrink to 0, and a shrink to a multiple of the chunk size always are. Writes always are.
   */
  predicate Tidy(C: pos, s: seq<byte>, op: FileOp)
  {
    match op
    case WriteOp(buf, off) => true
    case TruncateOp(ns) => forall k :: ns <= k < Min(CeilDiv(ns, C) * C, |s|) ==> s[k] == 0
  }

  predicate TidyRun(C: pos, s: seq<byte>, ops: seq<FileOp>)
    decreases |ops|
  {
    ops == [] || (Tidy(C, s, ops[0]) && TidyRun(C, FlatStep(s, ops[0]), ops[1..]))
  }

  lemma TidyIsZeroRange(L: Layout, f: File, ns: nat)
    ensures Tidy(L.C, Flat(L, f), TruncateOp(ns)) <==> ZeroRange(L, f, ns, CutEnd(L, f, ns))
  {
    var s := Flat(L, f);
    if Tidy(L.C, s, TruncateOp(ns)) {
      forall k: nat | ns <= k < CutEnd(L, f, ns) ensures ByteAt(L, f, k) == 0 {
        assert s[k] == 0;
      }
    }
  }

  lemma SparseStep(L: Layout, f: File, op: FileOp)
    requires WellFormed(L, f) && CleanTail(L, f) && Tidy(L.C, Flat(L, f), op)
    ensures CleanTail(L, Step(L, f, op)) && Flat(L, Step(L, f, op)) == FlatStep(Flat(L, f), op)
  {
    match op
    case WriteOp(buf, off) =>
      if |buf| > 0 {
        WriteRefines(L, f, buf, off);
      }
    case TruncateOp(ns) =>
      TidyIsZeroRange(L, f, ns);
      TruncateCleanTail(L, f, ns);
      TruncateRefines(L, f, ns);
  }

  /** Every run of writes at any offset and of tidy truncates means the flat run, with gaps read as zeros. */
  lemma {:induction false} SparseRun(L: Layout, f: File, ops: seq<FileOp>)
    requires WellFormed(L, f) && CleanTail(L, f) && TidyRun(L.C, Flat(L, f), ops)
    ensures WellFormed(L, Run(L, f, ops)) && CleanTail(L, Run(L, f, ops))
    ensures Flat(L, Run(L, f, ops)) == FlatRun(Flat(L, f), ops)
    decreases |ops|
  {
    if ops != [] {
      StepWellFormed(L, f, ops[0]);
      SparseStep(L, f, ops[0]);
      SparseRun(L, Step(L, f, ops[0]), ops[1..]);
    }
  }

  /**
   What the untrimmed last chunk costs: after a truncate, every later growth is zero-filled exactly when that
   truncate was tidy; otherwise bytes that were cut off come back.
   */
  lemma TruncateThenGrow(L: Layout, f: File, ns: nat)
    requires WellFormed(L, f) && CleanTail(L, f)
    ensures (forall g: nat :: ns <= g ==>
               Flat(L, Truncated(L, Truncated(L, f, ns), g)) == Resized(Resized(Flat(L, f), ns), g))
            <==> Tidy(L.C, Flat(L, f), TruncateOp(ns))
  {
    var cut := Truncated(L, f, ns);
    TruncatedWellFormed(L, f, ns);
    TidyIsZeroRange(L, f, ns);
    TruncateCleanTail(L, f, ns);
    TruncateRefines(L, f, ns);
    assert Flat(L, cut) == Resized(Flat(L, f), ns);
    if Tidy(L.C, Flat(L, f), TruncateOp(ns)) {
      forall g: nat | ns <= g
        ensures Flat(L, Truncated(L, cut, g)) == Resized(Flat(L, cut), g)
      {
        TruncateRefines(L, cut, g);
      }
    } else {
      var p: nat :| cut.size <= p && ByteAt(L, cut, p) != 0;
      TruncateRefines(L, cut, p + 1);
      assert !ZeroRange(L, cut, cut.size, p + 1);
    }
  }

  /** Two equal bytes, cut to one and grown to two again: the byte that was cut off is back. */
  lemma CutComesBack(L: Layout, x: byte)
    requires 1 < L.C && x != 0
    ensures var ops := [WriteOp([x, x], 0), TruncateOp(1), TruncateOp(2)];
            && FlatRun([], ops) == [x, 0]
            && Flat(L, Run(L, EMPTY, ops)) == [x, x]
            && ReadFile(L, Run(L, EMPTY, ops), 2, 0) == Data([x, x])
  {
    var ops := [WriteOp([x, x], 0), TruncateOp(1), TruncateOp(2)];
    var f1 := Written(L, EMPTY, [x, x], 0);
    var f2 := Truncated(L, f1, 1);
    var f3 := Truncated(L, f2, 2);
    assert WellFormed(L, EMPTY) by {
      CeilDivBounds(0, L.C);
    }
    WrittenWellFormed(L, EMPTY, [x, x], 0);
    TruncatedWellFormed(L, f1, 1);
    TruncatedWellFormed(L, f2, 2);
    FirstBytes(L, x, f1, f2, f3);
    assert FlatStep(FlatStep(FlatStep([], ops[0]), ops[1]), ops[2]) == [x, 0];
    hide Written, Truncated, WellFormed, Flat, ReadFile;
    ThreeSteps(L, EMPTY, [], ops[0], ops[1], ops[2]);
    CoveredRead(L, f3, 2, 0);
  }

  lemma FirstBytes(L: Layout, x: byte, f1: File, f2: File, f3: File)
    requires 1 < L.C && f1 == Written(L, EMPTY, [x, x], 0) && f2 == Truncated(L, f1, 1) && f3 == Truncated(L, f2, 2)
    requires WellFormed(L, EMPTY) && WellFormed(L, f1) && WellFormed(L, f2)
    ensures f3.size == 2 && Flat(L, f3) == [x, x] && NoShortChunk(L, f3)
  {
    FirstTable(L, x, f1);
    CutTables(L, f1, f2, f3);
    hide Written, Truncated, ByteAt, Chunk, WellFormed;
    SameTable(L, f1, f3, 0);
    SameTable(L, f1, f3, 1);
    forall i: nat | i in f3.blobs ensures Covered(L, f3, i) {
      OneChunkTable(L, f1, i);
      SameChunk(L, f1, f3, i);
    }
  }

  lemma FirstTable(L: Layout, x: byte, f1: File)
    requires 1 < L.C && f1 == Written(L, EMPTY, [x, x], 0) && WellFormed(L, EMPTY)
    ensures f1.n == 1 && f1.size == 2 && |Chunk(L, f1, 0)| == 2 && ByteAt(L, f1, 0) == x && ByteAt(L, f1, 1) == x
  {
    ChunkOf(0, 0, L.C);
    ChunkOf(1, 0, L.C);
    WrittenByteAt(L, EMPTY, [x, x], 0, 0);
    WrittenByteAt(L, EMPTY, [x, x], 0, 1);
    WrittenChunk(L, EMPTY, [x, x], 0, 0);
    hide Decoded, PatchedBlobs, ByteAt;
  }

  lemma CutTables(L: Layout, f1: File, f2: File, f3: File)
    requires 1 < L.C && WellFormed(L, f1) && f1.n == 1 && f1.size == 2
    requires f2 == Truncated(L, f1, 1) && f3 == Truncated(L, f2, 2)
    ensures f3.blobs == f1.blobs && f3.size == 2
  {
    CeilDivIs(1, 0, L.C);
    CeilDivIs(1, 1, L.C);
    hide DiskSum;
    forall i: nat ensures i in f1.blobs ==> i < 1 {
      assert GoodChunk(L, f1, i);
    }
    assert f2.blobs == f1.blobs;
  }

  lemma OneChunkTable(L: Layout, f: File, i: nat)
    requires WellFormed(L, f) && f.n == 1 && i in f.blobs
    ensures i == 0
  {
    assert GoodChunk(L, f, i);
  }

  lemma SameChunk(L: Layout, f: File, g: File, i: nat)
    requires f.blobs == g.blobs
    ensures Chunk(L, f, i) == Chunk(L, g, i)
  {
    hide Decoded;
  }

  lemma SameTable(L: Layout, f: File, g: File, p: nat)
    requires f.blobs == g.blobs
    ensures ByteAt(L, f, p) == ByteAt(L, g, p)
  {
    SameChunk(L, f, g, p / L.C);
    hide Chunk;
  }

  lemma RunHead(L: Layout, f: File, s: seq<byte>, op: FileOp, ops: seq<FileOp>)
    ensures Run(L, f, [op] + ops) == Run(L, Step(L, f, op), ops)
    ensures FlatRun(s, [op] + ops) == FlatRun(FlatStep(s, op), ops)
  {
    assert ([op] + ops)[0] == op && ([op] + ops)[1..] == ops;
  }

  lemma ThreeSteps(L: Layout, f: File, s: seq<byte>, a: FileOp, b: FileOp, c: FileOp)
    ensures Run(L, f, [a, b, c]) == Step(L, Step(L, Step(L, f, a), b), c)
    ensures FlatRun(s, [a, b, c]) == FlatStep(FlatStep(FlatStep(s, a), b), c)
  {
    assert [a, b, c] == [a] + ([b] + ([c] + []));
    RunHead(L, f, s, a, [b] + ([c] + []));
    RunHead(L, Step(L, f, a), FlatStep(s, a), b, [c] + []);
    RunHead(L, Step(L, Step(L, f, a), b), FlatStep(FlatStep(s, a), b), c, []);
  }

  // ---------------------------------------------------------------- a file written whole

  lemma EmptyFile(L: Layout)
    ensures WellFormed(L, EMPTY) && CleanTail(L, EMPTY) && Flat(L, EMPTY) == [] && Dense(L, EMPTY) && EMPTY.size == 0
  {
    CeilDivBounds(0, L.C);
  }

  /** A write over all of a dense file leaves a dense file of the buffer, and every nonempty read is its slice. */
  lemma WholeWrite(L: Layout, f: File, buf: seq<byte>)
    requires WellFormed(L, f) && Dense(L, f) && 0 < |buf| && f.size <= |buf|
    ensures var g := Written(L, f, buf, 0);
            && WellFormed(L, g) && Dense(L, g) && Flat(L, g) == buf && g.size == |buf|
            && forall size: nat, off: nat :: 0 < size ==> ReadFile(L, g, size, off) == Data(Slice(buf, off, size))
  {
    var g := Written(L, f, buf, 0);
    assert Spliced(Flat(L, f), buf, 0) == buf;
    hide Written, WellFormed, Dense, Flat, ReadFile, Spliced;
    WrittenWellFormed(L, f, buf, 0);
    DenseStep(L, f, WriteOp(buf, 0));
    forall size: nat, off: nat | 0 < size ensures ReadFile(L, g, size, off) == Data(Slice(buf, off, size)) {
      DenseReadsExact(L, g, size, off);
    }
    assert |Flat(L, g)| == g.size;
  }

  /** The file of one byte. */
  lemma OneByte(L: Layout, x: byte)
    ensures var f := Written(L, EMPTY, [x], 0);
            && f.size == 1 && f.n == 1 && f.csize <= 65 && f.blobs.Keys == {0} && |f.blobs[0]| != 0
            && WellFormed(L, f) && Flat(L, f) == [x] && Dense(L, f) && CleanTail(L, f)
            && ReadFile(L, f, 1, 0) == Data([x])
  {
    EmptyFile(L);
    OneByteTable(L, x);
    hide Written, WellFormed, Flat, Dense, CleanTail, ReadFile;
    WholeWrite(L, EMPTY, [x]);
    SparseStep(L, EMPTY, WriteOp([x], 0));
  }

  lemma OneByteTable(L: Layout, x: byte)
    ensures var f := Written(L, EMPTY, [x], 0);
            f.size == 1 && f.n == 1 && f.csize <= 65 && f.blobs.Keys == {0} && |f.blobs[0]| != 0
  {
    ChunkOf(0, 0, L.C);
    var f := Written(L, EMPTY, [x], 0);
    TouchedSetIs(L.C, 0, 1);
    assert Touched(L.C, 0, 1, 0);
    assert Patched(L, EMPTY, [x], 0, 0) == [x];
    var b := L.z.compress([x]);
    assert 0 < |b| <= 1 + 1 / 256 + 64;
    assert f.blobs.Keys == {0} && f.blobs[0] == b;
    hide Patched, PatchedBlobs;
    assert DiskSum(f.blobs, 1) == DiskSum(f.blobs, 0) + |b|;
  }
}
