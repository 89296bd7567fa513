/** The version 1 metadata file: a 64-byte header and a 24-byte row per chunk of 4096 bytes, little-endian. */
module BinaryMeta {
  import opened Bytes

  const CHUNK_SIZE: pos := 4096
  const META_VERSION := 1
  const META_CODEC_ID_ZSTD := 1
  const META_HEADER_SIZE := 64
  const META_ENTRY_SIZE := 24
  const META_MAGIC: seq<byte> := [0x43, 0x46, 0x4D, 0x31]

  const TWO_32 := 0x1_0000_0000

  datatype ChunkMeta = ChunkMeta(logicalLength: u32, dataOffset: u64, compressedSize: u32)

  datatype FileMeta = FileMeta(logicalSize: u64, chunks: seq<ChunkMeta>)

  // ---------------------------------------------------------------- little-endian integers

  function Pow256(k: nat): nat
  {
    if k == 0 then 1 else 256 * Pow256(k - 1)
  }

  /** The low `k` bytes of `n`, least significant first. */
  function LE(n: nat, k: nat): (s: seq<byte>)
    ensures |s| == k
  {
    if k == 0 then [] else [(n % 256) as byte] + LE(n / 256, k - 1)
  }

  function FromLE(s: seq<byte>): nat
  {
    if s == [] then 0 else s[0] as nat + 256 * FromLE(s[1..])
  }

  lemma {:induction false} FromLEBound(s: seq<byte>)
    ensures FromLE(s) < Pow256(|s|)
  {
    if s != [] {
      FromLEBound(s[1..]);
    }
  }

  lemma {:induction false} LERoundTrip(n: nat, k: nat)
    requires n < Pow256(k)
    ensures FromLE(LE(n, k)) == n
  {
    if k > 0 {
      LERoundTrip(n / 256, k - 1);
      assert LE(n, k)[1..] == LE(n / 256, k - 1);
    }
  }

  lemma Powers()
    ensures Pow256(1) == 0x100 && Pow256(2) == 0x1_0000 && Pow256(4) == TWO_32 && Pow256(8) == TWO_64
  {
    assert Pow256(3) == 0x100_0000 && Pow256(5) == 0x100 * TWO_32;
    assert Pow256(6) == 0x1_0000 * TWO_32 && Pow256(7) == 0x100_0000 * TWO_32;
  }

  function U32At(b: seq<byte>, at: nat): (n: u32)
    requires at + 4 <= |b|
  {
    FromLEBound(b[at..at + 4]);
    Powers();
    FromLE(b[at..at + 4])
  }

  function U64At(b: seq<byte>, at: nat): (n: u64)
    requires at + 8 <= |b|
  {
    FromLEBound(b[at..at + 8]);
    Powers();
    FromLE(b[at..at + 8])
  }

  // ---------------------------------------------------------------- writing

  function Header(size: u64, count: u32): (h: seq<byte>)
    ensures |h| == META_HEADER_SIZE
  {
    META_MAGIC + LE(META_VERSION, 1) + LE(META_CODEC_ID_ZSTD, 1) + LE(0, 2) + LE(size, 8) + LE(CHUNK_SIZE, 4)
    + LE(count, 4) + LE(1, 4) + LE(0, 4) + Zeros(32)
  }

  function Row(i: nat, cm: ChunkMeta): (r: seq<byte>)
    ensures |r| == META_ENTRY_SIZE
  {
    LE(i, 4) + LE(cm.logicalLength, 4) + LE(cm.dataOffset, 8) + LE(cm.compressedSize, 4) + LE(0, 4)
  }

  function Rows(chunks: seq<ChunkMeta>, n: nat): (r: seq<byte>)
    requires n <= |chunks|
    ensures |r| == META_ENTRY_SIZE * n
  {
    if n == 0 then [] else Rows(chunks, n - 1) + Row(n - 1, chunks[n - 1])
  }

  /** The cast of the chunk count to 32 bits. */
  function RowCount(m: FileMeta): (n: u32)
    ensures n <= |m.chunks|
  {
    |m.chunks| % TWO_32
  }

  function Encode(m: FileMeta): (b: seq<byte>)
    ensures |b| == META_HEADER_SIZE + META_ENTRY_SIZE * RowCount(m)
  {
    Header(m.logicalSize, RowCount(m)) + Rows(m.chunks, RowCount(m))
  }

  /** An output stream whose writes all succeed. */
  class OutStream {
    var out: seq<byte>

    constructor ()
      ensures out == []
    {
      out := [];
    }

    method Write(s: seq<byte>)
      modifies this
      ensures out == old(out) + s
    {
      out := out + s;
    }
  }

  method WriteHeader(f: OutStream, size: u64, count: u32)
    modifies f
    ensures f.out == old(f.out) + Header(size, count)
  {
    hide LE, Zeros;
    f.Write(META_MAGIC);
    f.Write(LE(META_VERSION, 1));
    f.Write(LE(META_CODEC_ID_ZSTD, 1));
    f.Write(LE(0, 2));
    f.Write(LE(size, 8));
    f.Write(LE(CHUNK_SIZE, 4));
    f.Write(LE(count, 4));
    f.Write(LE(1, 4));
    f.Write(LE(0, 4));
    f.Write(Zeros(32));
  }

  method WriteRow(f: OutStream, i: u32, cm: ChunkMeta)
    modifies f
    ensures f.out == old(f.out) + Row(i, cm)
  {
    hide LE;
    f.Write(LE(i, 4));
    f.Write(LE(cm.logicalLength, 4));
    f.Write(LE(cm.dataOffset, 8));
    f.Write(LE(cm.compressedSize, 4));
    f.Write(LE(0, 4));
  }

  method SaveMeta(m: FileMeta) returns (b: seq<byte>)
    ensures b == Encode(m)
  {
    hide Row, Header;
    var f := new OutStream();
    var count := |m.chunks| % TWO_32;
    WriteHeader(f, m.logicalSize, count);
    var i := 0;
    assert f.out == Header(m.logicalSize, count) + Rows(m.chunks, 0);
    while i < count
      invariant 0 <= i <= count
      invariant f.out == Header(m.logicalSize, count) + Rows(m.chunks, i)
    {
      WriteRow(f, i, m.chunks[i]);
      i := i + 1;
      assert f.out == Header(m.logicalSize, count) + (Rows(m.chunks, i - 1) + Row(i - 1, m.chunks[i - 1]));
    }
    b := f.out;
  }

  // ---------------------------------------------------------------- reading

  /** An input stream: a read that comes up short clears `good`. */
  class InStream {
    const data: seq<byte>
    var pos: nat
    var good: bool

    constructor (data: seq<byte>)
      ensures this.data == data && pos == 0 && good
    {
      this.data := data;
      pos, good := 0, true;
    }

    method Read(k: nat) returns (s: seq<byte>)
      requires good && pos <= |data|
      modifies this
      ensures good == (old(pos) + k <= |data|)
      ensures good ==> s == data[old(pos)..old(pos) + k] && pos == old(pos) + k
    {
      if pos + k <= |data| {
        s := data[pos..pos + k];
        pos := pos + k;
      } else {
        s := data[pos..];
        good := false;
      }
    }
  }

  function LengthSum(chunks: seq<ChunkMeta>): nat
  {
    if chunks == [] then 0 else LengthSum(chunks[..|chunks| - 1]) + chunks[|chunks| - 1].logicalLength
  }

  function RowAt(b: seq<byte>, i: nat): ChunkMeta
    requires META_HEADER_SIZE + META_ENTRY_SIZE * (i + 1) <= |b|
  {
    var at := META_HEADER_SIZE + META_ENTRY_SIZE * i;
    ChunkMeta(U32At(b, at + 4), U64At(b, at + 8), U32At(b, at + 16))
  }

  function RowsAt(b: seq<byte>, n: nat): (rs: seq<ChunkMeta>)
    requires META_HEADER_SIZE + META_ENTRY_SIZE * n <= |b|
    ensures |rs| == n
  {
    seq(n, i requires 0 <= i < n => RowAt(b, i))
  }

  predicate GoodHeader(b: seq<byte>)
  {
    && META_HEADER_SIZE <= |b|
    && b[..4] == META_MAGIC && b[4] as nat == META_VERSION && b[5] as nat == META_CODEC_ID_ZSTD
    && U32At(b, 16) == CHUNK_SIZE
  }

  /** What `load_meta` accepts, field by field: every fixed offset of the format, every row, and the length sum. */
  predicate Accepts(b: seq<byte>)
  {
    && GoodHeader(b)
    && var n := U32At(b, 20);
    && META_HEADER_SIZE + META_ENTRY_SIZE * n <= |b|
    && (forall i: nat :: i < n ==> U32At(b, META_HEADER_SIZE + META_ENTRY_SIZE * i) == i)
    && LengthSum(RowsAt(b, n)) == U64At(b, 8)
  }

  function Parsed(b: seq<byte>): FileMeta
    requires Accepts(b)
  {
    FileMeta(U64At(b, 8), RowsAt(b, U32At(b, 20)))
  }

  /** The 64-bit sum of the lengths never wraps. */
  lemma {:induction false} SumFits(chunks: seq<ChunkMeta>)
    ensures LengthSum(chunks) <= |chunks| * (TWO_32 - 1)
    ensures |chunks| < TWO_32 ==> LengthSum(chunks) <= (TWO_32 - 1) * (TWO_32 - 1) < TWO_64
  {
    if chunks != [] {
      SumFits(chunks[..|chunks| - 1]);
    }
  }

  method ReadU32(f: InStream) returns (v: u32)
    requires f.good && f.pos <= |f.data|
    modifies f
    ensures f.good == (old(f.pos) + 4 <= |f.data|)
    ensures f.good ==> v == U32At(f.data, old(f.pos)) && f.pos == old(f.pos) + 4
  {
    var s := f.Read(4);
    if !f.good {
      return 0;
    }
    FromLEBound(s);
    Powers();
    v := FromLE(s);
  }

  method ReadU64(f: InStream) returns (v: u64)
    requires f.good && f.pos <= |f.data|
    modifies f
    ensures f.good == (old(f.pos) + 8 <= |f.data|)
    ensures f.good ==> v == U64At(f.data, old(f.pos)) && f.pos == old(f.pos) + 8
  {
    var s := f.Read(8);
    if !f.good {
      return 0;
    }
    FromLEBound(s);
    Powers();
    v := FromLE(s);
  }

  /** The fixed part: magic, version, codec, sizes and the digest, of which only some are checked. */
  method ReadHeader(f: InStream) returns (ok: bool, size: u64, count: u32)
    requires f.good && f.pos == 0
    modifies f
    ensures ok == GoodHeader(f.data)
    ensures ok <==> META_HEADER_SIZE <= |f.data| && f.data[..6] == [0x43, 0x46, 0x4D, 0x31, 0x01, 0x01] &&
                    f.data[16..20] == [0x00, 0x10, 0x00, 0x00]
    ensures ok ==> f.good && f.pos == META_HEADER_SIZE && size == U64At(f.data, 8) && count == U32At(f.data, 20)
  {
    GoodHeaderIff(f.data);
    hide FromLE;
    ok, size, count := false, 0, 0;
    var magic := f.Read(4);
    if !f.good || magic != META_MAGIC {
      return;
    }
    var version := f.Read(1);
    if !f.good { return; }
    var codec := f.Read(1);
    if !f.good { return; }
    var reserved := f.Read(2);
    if !f.good { return; }
    size := ReadU64(f);
    if !f.good { return; }
    var chunkSize := ReadU32(f);
    if !f.good { return; }
    count := ReadU32(f);
    if !f.good { return; }
    var level := ReadU32(f);
    if !f.good { return; }
    var flags := ReadU32(f);
    if !f.good { return; }
    var digest := f.Read(32);
    if !f.good || version[0] as nat != META_VERSION || codec[0] as nat != META_CODEC_ID_ZSTD
       || chunkSize != CHUNK_SIZE
    {
      return;
    }
    ok := true;
  }

  method ReadRow(f: InStream) returns (index: u32, cm: ChunkMeta)
    requires f.good && f.pos <= |f.data|
    modifies f
    ensures f.good == (old(f.pos) + META_ENTRY_SIZE <= |f.data|)
    ensures f.good ==> f.pos == old(f.pos) + META_ENTRY_SIZE
    ensures f.good ==> index == U32At(f.data, old(f.pos))
    ensures f.good ==>
              var at := old(f.pos);
              cm == ChunkMeta(U32At(f.data, at + 4), U64At(f.data, at + 8), U32At(f.data, at + 16))
  {
    cm := ChunkMeta(0, 0, 0);
    index := ReadU32(f);
    if !f.good { return; }
    var length := ReadU32(f);
    if !f.good { return; }
    var offset := ReadU64(f);
    if !f.good { return; }
    var size := ReadU32(f);
    if !f.good { return; }
    var reserved := ReadU32(f);
    cm := ChunkMeta(length, offset, size);
  }

  /** The sum of the row lengths, in 64 bits. */
  method SumLengths(chunks: seq<ChunkMeta>) returns (sum: u64)
    requires |chunks| < TWO_32
    ensures sum == LengthSum(chunks)
  {
    sum := 0;
    var i := 0;
    while i < |chunks|
      invariant 0 <= i <= |chunks| && sum == LengthSum(chunks[..i])
    {
      SumFits(chunks[..i + 1]);
      assert chunks[..i + 1][..i] == chunks[..i];
      sum := (sum + chunks[i].logicalLength) % TWO_64;
      i := i + 1;
    }
    assert chunks[..i] == chunks;
  }

  method LoadMeta(b: seq<byte>) returns (r: Option<FileMeta>)
    ensures r == if Accepts(b) then Some(Parsed(b)) else None
    ensures forall m :: r == Some(m) <==> Agrees(b, m)
  {
    hide U32At, U64At, Agrees;
    LoadsOnly(b);
    var f := new InStream(b);
    var ok, size, count := ReadHeader(f);
    if !ok {
      return None;
    }
    var chunks: seq<ChunkMeta> := [];
    var i := 0;
    while i < count
      invariant 0 <= i <= count && f.good
      invariant f.pos == META_HEADER_SIZE + META_ENTRY_SIZE * i <= |b| && chunks == RowsAt(b, i)
      invariant forall j: nat :: j < i ==> U32At(b, META_HEADER_SIZE + META_ENTRY_SIZE * j) == j
    {
      var index, cm := ReadRow(f);
      if !f.good {
        return None;
      }
      if index != i {
        return None;
      }
      chunks := chunks + [cm];
      i := i + 1;
    }
    var sum := SumLengths(chunks);
    if sum != size {
      return None;
    }
    r := Some(FileMeta(size, chunks));
  }

  // ---------------------------------------------------------------- reading what was written

  lemma FieldAt(b: seq<byte>, pre: seq<byte>, field: seq<byte>, post: seq<byte>)
    requires b == pre + field + post
    ensures b[|pre|..|pre| + |field|] == field
  {
  }

  lemma ThreeFields(p: seq<byte>, f: seq<byte>, g: seq<byte>, h: seq<byte>, post: seq<byte>)
    ensures var b, i, j, k := p + f + g + h + post, |p| + |f|, |p| + |f| + |g|, |p| + |f| + |g| + |h|;
            b[..|p|] == p && b[|p|..i] == f && b[i..j] == g && b[j..k] == h
  {
    FieldAt(p + f + g + h + post, p + f + g, h, post);
    FieldAt(p + f + g + h, p + f, g, h);
    FieldAt(p + f + g, p, f, g);
  }

  lemma HeaderIs(size: u64, count: u32, rest: seq<byte>)
    ensures Header(size, count) + rest ==
            (META_MAGIC + LE(META_VERSION, 1) + LE(META_CODEC_ID_ZSTD, 1) + LE(0, 2)) + LE(size, 8) + LE(CHUNK_SIZE, 4)
            + LE(count, 4) + (LE(1, 4) + LE(0, 4) + Zeros(32) + rest)
  {
  }

  lemma HeaderSlices(size: u64, count: u32, rest: seq<byte>)
    ensures var b := Header(size, count) + rest;
            && b[..4] == META_MAGIC && b[4] == LE(META_VERSION, 1)[0] && b[5] == LE(META_CODEC_ID_ZSTD, 1)[0]
            && b[8..16] == LE(size, 8) && b[16..20] == LE(CHUNK_SIZE, 4) && b[20..24] == LE(count, 4)
  {
    hide LE, Zeros;
    var b := Header(size, count) + rest;
    var p := META_MAGIC + LE(META_VERSION, 1) + LE(META_CODEC_ID_ZSTD, 1) + LE(0, 2);
    HeaderIs(size, count, rest);
    hide Header;
    ThreeFields(p, LE(size, 8), LE(CHUNK_SIZE, 4), LE(count, 4), LE(1, 4) + LE(0, 4) + Zeros(32) + rest);
    assert b[..8] == p;
    assert b[..4] == b[..8][..4] && b[4] == b[..8][4] && b[5] == b[..8][5];
  }

  lemma HeaderFields(size: u64, count: u32, rest: seq<byte>)
    ensures var b := Header(size, count) + rest;
            GoodHeader(b) && U64At(b, 8) == size && U32At(b, 20) == count
  {
    HeaderSlices(size, count, rest);
    Powers();
    LERoundTrip(size, 8);
    LERoundTrip(CHUNK_SIZE, 4);
    LERoundTrip(count, 4);
    assert LE(META_VERSION, 1)[0] as nat == META_VERSION && LE(META_CODEC_ID_ZSTD, 1)[0] as nat == META_CODEC_ID_ZSTD;
    hide LE, FromLE, Zeros, Header;
  }

  lemma RowSlices(pre: seq<byte>, i: u32, cm: ChunkMeta, post: seq<byte>)
    ensures var b, at := pre + Row(i, cm) + post, |pre|;
            && b[at..at + 4] == LE(i, 4) && b[at + 4..at + 8] == LE(cm.logicalLength, 4)
            && b[at + 8..at + 16] == LE(cm.dataOffset, 8) && b[at + 16..at + 20] == LE(cm.compressedSize, 4)
  {
    hide LE;
    var f1, f2, f3, f4 := LE(i, 4), LE(cm.logicalLength, 4), LE(cm.dataOffset, 8), LE(cm.compressedSize, 4);
    var tail := LE(0, 4) + post;
    RowIs(pre, i, cm, post);
    hide Row;
    ThreeFields(pre, f1, f2, f3, f4 + tail);
    FieldAt(pre + f1 + f2 + f3 + f4 + tail, pre + f1 + f2 + f3, f4, tail);
  }

  lemma RowIs(pre: seq<byte>, i: u32, cm: ChunkMeta, post: seq<byte>)
    ensures var f := pre + LE(i, 4) + LE(cm.logicalLength, 4) + LE(cm.dataOffset, 8);
            && pre + Row(i, cm) + post == f + LE(cm.compressedSize, 4) + (LE(0, 4) + post)
            && pre + Row(i, cm) + post == f + (LE(cm.compressedSize, 4) + (LE(0, 4) + post))
  {
    hide LE;
  }

  lemma RowFields(pre: seq<byte>, i: u32, cm: ChunkMeta, post: seq<byte>)
    ensures var b, at := pre + Row(i, cm) + post, |pre|;
            && U32At(b, at) == i
            && ChunkMeta(U32At(b, at + 4), U64At(b, at + 8), U32At(b, at + 16)) == cm
  {
    RowSlices(pre, i, cm, post);
    Powers();
    LERoundTrip(i, 4);
    LERoundTrip(cm.logicalLength, 4);
    LERoundTrip(cm.dataOffset, 8);
    LERoundTrip(cm.compressedSize, 4);
    hide LE, FromLE, Row;
  }

  /** The row table contains row `i` at its fixed offset. */
  lemma {:induction false} RowsSplit(chunks: seq<ChunkMeta>, n: nat, i: nat)
    requires i < n <= |chunks|
    ensures Rows(chunks, n) == Rows(chunks, i) + Row(i, chunks[i]) + Rows(chunks, n)[META_ENTRY_SIZE * (i + 1)..]
  {
    hide Row;
    if i < n - 1 {
      RowsSplit(chunks, n - 1, i);
      var inner, last := Rows(chunks, n - 1), Row(n - 1, chunks[n - 1]);
      assert (inner + last)[META_ENTRY_SIZE * (i + 1)..] == inner[META_ENTRY_SIZE * (i + 1)..] + last;
    }
  }

  lemma EncodedRow(m: FileMeta, i: nat)
    requires i < RowCount(m)
    ensures U32At(Encode(m), META_HEADER_SIZE + META_ENTRY_SIZE * i) == i
    ensures RowAt(Encode(m), i) == m.chunks[i]
  {
    hide Row, Rows, Header, U32At, U64At;
    var h, n := Header(m.logicalSize, RowCount(m)), RowCount(m);
    var rows, left := Rows(m.chunks, n), Rows(m.chunks, i);
    var post := rows[META_ENTRY_SIZE * (i + 1)..];
    RowsSplit(m.chunks, n, i);
    assert Encode(m) == (h + left) + Row(i, m.chunks[i]) + post;
    RowFields(h + left, i, m.chunks[i], post);
  }

  /** Reading back what was written: the same rows, up to the count that fits 32 bits. */
  lemma EncodedIs(m: FileMeta)
    ensures GoodHeader(Encode(m)) && U64At(Encode(m), 8) == m.logicalSize && U32At(Encode(m), 20) == RowCount(m)
    ensures RowsAt(Encode(m), RowCount(m)) == m.chunks[..RowCount(m)]
    ensures Accepts(Encode(m)) <==> LengthSum(m.chunks[..RowCount(m)]) == m.logicalSize
  {
    hide U32At, U64At, Rows, Header;
    HeaderFields(m.logicalSize, RowCount(m), Rows(m.chunks, RowCount(m)));
    forall i: nat | i < RowCount(m)
      ensures U32At(Encode(m), META_HEADER_SIZE + META_ENTRY_SIZE * i) == i && RowAt(Encode(m), i) == m.chunks[i]
    {
      EncodedRow(m, i);
    }
    assert RowsAt(Encode(m), RowCount(m)) == m.chunks[..RowCount(m)];
  }

  /** Loading what was saved gives the same record exactly when the rows fit a 32-bit count and cover the file. */
  lemma RoundTripIff(m: FileMeta)
    ensures (Accepts(Encode(m)) && Parsed(Encode(m)) == m) <==>
            |m.chunks| < TWO_32 && LengthSum(m.chunks) == m.logicalSize
  {
    hide U32At, U64At, GoodHeader;
    EncodedIs(m);
    if |m.chunks| < TWO_32 {
      assert RowCount(m) == |m.chunks| && m.chunks[..|m.chunks|] == m.chunks;
    }
  }

  /** Every accepted file, re-saved, loads to the same record. */
  lemma ResaveLoads(b: seq<byte>)
    requires Accepts(b)
    ensures Accepts(Encode(Parsed(b))) && Parsed(Encode(Parsed(b))) == Parsed(b)
    ensures |Encode(Parsed(b))| == META_HEADER_SIZE + META_ENTRY_SIZE * |Parsed(b).chunks| <= |b|
  {
    RoundTripIff(Parsed(b));
  }

  // ---------------------------------------------------------------- exactly which files are accepted

  lemma {:induction false} LEBack(s: seq<byte>)
    ensures LE(FromLE(s), |s|) == s
  {
    if s != [] {
      LEBack(s[1..]);
      assert (s[0] as nat + 256 * FromLE(s[1..])) / 256 == FromLE(s[1..]);
    }
  }

  lemma U32Iff(b: seq<byte>, at: nat, n: u32)
    requires at + 4 <= |b|
    ensures U32At(b, at) == n <==> b[at..at + 4] == LE(n, 4)
  {
    Powers();
    LERoundTrip(n, 4);
    LEBack(b[at..at + 4]);
    hide LE, FromLE, Pow256;
  }

  lemma U64Iff(b: seq<byte>, at: nat, n: u64)
    requires at + 8 <= |b|
    ensures U64At(b, at) == n <==> b[at..at + 8] == LE(n, 8)
  {
    Powers();
    LERoundTrip(n, 8);
    LEBack(b[at..at + 8]);
    hide LE, FromLE, Pow256;
  }

  /** The header has its fixed bytes, this size and this number of rows. */
  ghost predicate HeaderIn(b: seq<byte>, size: u64, n: u32)
  {
    && META_HEADER_SIZE <= |b| && b[..4] == META_MAGIC && b[4..5] == LE(1, 1) && b[5..6] == LE(1, 1)
    && b[8..16] == LE(size, 8) && b[16..20] == LE(CHUNK_SIZE, 4) && b[20..24] == LE(n, 4)
  }

  /** At `at` is row `i` with these contents. */
  ghost predicate RowIn(b: seq<byte>, at: nat, i: u32, cm: ChunkMeta)
  {
    && at + META_ENTRY_SIZE <= |b| && b[at..at + 4] == LE(i, 4) && b[at + 4..at + 8] == LE(cm.logicalLength, 4)
    && b[at + 8..at + 16] == LE(cm.dataOffset, 8) && b[at + 16..at + 20] == LE(cm.compressedSize, 4)
  }

  lemma HeaderInIff(b: seq<byte>, size: u64, n: u32)
    ensures HeaderIn(b, size, n) <==> GoodHeader(b) && U64At(b, 8) == size && U32At(b, 20) == n
  {
    if META_HEADER_SIZE <= |b| {
      U64Iff(b, 8, size);
      U32Iff(b, 16, CHUNK_SIZE);
      U32Iff(b, 20, n);
      assert LE(1, 1) == [1];
    }
    hide LE, FromLE, U32At, U64At;
  }

  lemma RowInIff(b: seq<byte>, at: nat, i: u32, cm: ChunkMeta)
    requires at + META_ENTRY_SIZE <= |b|
    ensures RowIn(b, at, i, cm) <==>
            U32At(b, at) == i && ChunkMeta(U32At(b, at + 4), U64At(b, at + 8), U32At(b, at + 16)) == cm
  {
    U32Iff(b, at, i);
    U32Iff(b, at + 4, cm.logicalLength);
    U64Iff(b, at + 8, cm.dataOffset);
    U32Iff(b, at + 16, cm.compressedSize);
    hide LE, FromLE, U32At, U64At;
  }

  /** Header and rows are those of `m`. */
  ghost predicate FieldsIn(b: seq<byte>, m: FileMeta)
  {
    && |m.chunks| < TWO_32 && META_HEADER_SIZE + META_ENTRY_SIZE * |m.chunks| <= |b|
    && HeaderIn(b, m.logicalSize, |m.chunks|)
    && forall i: nat :: i < |m.chunks| ==> RowIn(b, META_HEADER_SIZE + META_ENTRY_SIZE * i, i, m.chunks[i])
  }

  lemma FieldsInIff(b: seq<byte>, m: FileMeta)
    ensures FieldsIn(b, m) && LengthSum(m.chunks) == m.logicalSize <==> Accepts(b) && Parsed(b) == m
  {
    hide U32At, U64At, LengthSum, GoodHeader, HeaderIn, RowIn;
    if |m.chunks| < TWO_32 && META_HEADER_SIZE + META_ENTRY_SIZE * |m.chunks| <= |b| {
      HeaderInIff(b, m.logicalSize, |m.chunks|);
      forall i: nat | i < |m.chunks|
        ensures RowIn(b, META_HEADER_SIZE + META_ENTRY_SIZE * i, i, m.chunks[i]) <==>
                U32At(b, META_HEADER_SIZE + META_ENTRY_SIZE * i) == i && RowAt(b, i) == m.chunks[i]
      {
        RowInIff(b, META_HEADER_SIZE + META_ENTRY_SIZE * i, i, m.chunks[i]);
      }
      if FieldsIn(b, m) {
        forall i: nat | i < |m.chunks|
          ensures U32At(b, META_HEADER_SIZE + META_ENTRY_SIZE * i) == i && RowAt(b, i) == m.chunks[i]
        {
          assert RowIn(b, META_HEADER_SIZE + META_ENTRY_SIZE * i, i, m.chunks[i]);
        }
        assert RowsAt(b, |m.chunks|) == m.chunks;
      } else if RowsAt(b, |m.chunks|) == m.chunks {
        assert forall i: nat :: i < |m.chunks| ==> RowsAt(b, |m.chunks|)[i] == RowAt(b, i);
      }
    }
  }

  /** No test and no field of the record looks at these bytes: two reserved ones, level, flags, digest, row padding. */
  predicate Ignored(k: nat)
  {
    6 <= k < 8 || 24 <= k < 64 || (64 <= k && 20 <= (k - 64) % 24)
  }

  /** The bytes of the header that are tested. */
  lemma GoodHeaderIff(b: seq<byte>)
    ensures GoodHeader(b) <==>
            META_HEADER_SIZE <= |b| && b[..6] == [0x43, 0x46, 0x4D, 0x31, 0x01, 0x01] &&
            b[16..20] == [0x00, 0x10, 0x00, 0x00]
  {
    if META_HEADER_SIZE <= |b| {
      U32Iff(b, 16, CHUNK_SIZE);
      SmallLE();
      hide U32At, LE;
      assert b[..6] == b[..4] + [b[4], b[5]];
    }
  }

  /** `b` begins with what `save_meta` writes for `m`, up to ignored bytes. */
  ghost predicate Agrees(b: seq<byte>, m: FileMeta)
  {
    && |m.chunks| < TWO_32 && LengthSum(m.chunks) == m.logicalSize && |Encode(m)| <= |b|
    && forall k: nat :: k < |Encode(m)| && !Ignored(k) ==> b[k] == Encode(m)[k]
  }

  lemma LoadsOnly(b: seq<byte>)
    ensures forall m :: (if Accepts(b) then Some(Parsed(b)) else None) == Some(m) <==> Agrees(b, m)
  {
    hide Accepts, Parsed, Agrees;
    forall m ensures (if Accepts(b) then Some(Parsed(b)) else None) == Some(m) <==> Agrees(b, m) {
      LoadsIff(b, m);
    }
  }

  lemma SameRange(b: seq<byte>, c: seq<byte>, at: nat, to: nat)
    requires at <= to <= |b| && to <= |c| && forall k: nat :: at <= k < to ==> b[k] == c[k]
    ensures b[at..to] == c[at..to]
  {
  }

  lemma InRange(b: seq<byte>, c: seq<byte>, at: nat, to: nat, k: nat)
    requires at <= k < to <= |b| && to <= |c| && b[at..to] == c[at..to]
    ensures b[k] == c[k]
  {
    assert b[at..to][k - at] == c[at..to][k - at];
  }

  lemma HeaderAgrees(b: seq<byte>, c: seq<byte>, size: u64, n: u32)
    requires HeaderIn(c, size, n) && META_HEADER_SIZE <= |b|
    ensures HeaderIn(b, size, n) <==> forall k: nat :: k < META_HEADER_SIZE && !Ignored(k) ==> b[k] == c[k]
  {
    hide LE;
    if HeaderIn(b, size, n) {
      forall k: nat | k < META_HEADER_SIZE && !Ignored(k) ensures b[k] == c[k] {
        if k < 4 {
          assert b[k] == b[..4][k] && c[k] == c[..4][k];
        } else {
          var at := if k < 5 then 4 else if k < 6 then 5 else if k < 16 then 8 else if k < 20 then 16 else 20;
          var to := if k < 5 then 5 else if k < 6 then 6 else if k < 16 then 16 else if k < 20 then 20 else 24;
          InRange(b, c, at, to, k);
        }
      }
    }
    if forall k: nat :: k < META_HEADER_SIZE && !Ignored(k) ==> b[k] == c[k] {
      SameRange(b, c, 0, 4);
      SameRange(b, c, 4, 5);
      SameRange(b, c, 5, 6);
      SameRange(b, c, 8, 16);
      SameRange(b, c, 16, 20);
      SameRange(b, c, 20, 24);
    }
  }

  lemma RowAgrees(b: seq<byte>, c: seq<byte>, at: nat, i: u32, cm: ChunkMeta)
    requires RowIn(c, at, i, cm) && at + META_ENTRY_SIZE <= |b|
    ensures RowIn(b, at, i, cm) <==> forall k: nat :: at <= k < at + 20 ==> b[k] == c[k]
  {
    hide LE;
    if RowIn(b, at, i, cm) {
      forall k: nat | at <= k < at + 20 ensures b[k] == c[k] {
        if k < at + 4 {
          InRange(b, c, at, at + 4, k);
        } else if k < at + 8 {
          InRange(b, c, at + 4, at + 8, k);
        } else if k < at + 16 {
          InRange(b, c, at + 8, at + 16, k);
        } else {
          InRange(b, c, at + 16, at + 20, k);
        }
      }
    }
    if forall k: nat :: at <= k < at + 20 ==> b[k] == c[k] {
      SameRange(b, c, at, at + 4);
      SameRange(b, c, at + 4, at + 8);
      SameRange(b, c, at + 8, at + 16);
      SameRange(b, c, at + 16, at + 20);
    }
  }

  /** Position `k` of row `i`. */
  lemma RowPosition(i: nat, k: nat)
    requires META_HEADER_SIZE + META_ENTRY_SIZE * i <= k < META_HEADER_SIZE + META_ENTRY_SIZE * (i + 1)
    ensures (k - 64) / 24 == i && (Ignored(k) <==> META_HEADER_SIZE + META_ENTRY_SIZE * i + 20 <= k)
  {
  }

  lemma FieldsAgree(b: seq<byte>, c: seq<byte>, m: FileMeta)
    requires FieldsIn(c, m) && META_HEADER_SIZE + META_ENTRY_SIZE * |m.chunks| <= |b|
    ensures FieldsIn(b, m) <==>
            forall k: nat :: k < META_HEADER_SIZE + META_ENTRY_SIZE * |m.chunks| && !Ignored(k) ==> b[k] == c[k]
  {
    hide Ignored, HeaderIn, RowIn;
    var end := META_HEADER_SIZE + META_ENTRY_SIZE * |m.chunks|;
    HeaderAgrees(b, c, m.logicalSize, |m.chunks|);
    if FieldsIn(b, m) {
      forall k: nat | k < end && !Ignored(k) ensures b[k] == c[k] {
        if META_HEADER_SIZE <= k {
          var i := (k - 64) / 24;
          RowPosition(i, k);
          RowAgrees(b, c, META_HEADER_SIZE + META_ENTRY_SIZE * i, i, m.chunks[i]);
        }
      }
    }
    if forall k: nat :: k < end && !Ignored(k) ==> b[k] == c[k] {
      forall i: nat | i < |m.chunks| ensures RowIn(b, META_HEADER_SIZE + META_ENTRY_SIZE * i, i, m.chunks[i]) {
        var at := META_HEADER_SIZE + META_ENTRY_SIZE * i;
        forall k: nat | at <= k < at + 20 ensures b[k] == c[k] {
          RowPosition(i, k);
        }
        RowAgrees(b, c, at, i, m.chunks[i]);
      }
    }
  }

  /** A file is accepted exactly when it is, up to ignored bytes, what is saved for a record; and it loads as that. */
  lemma LoadsIff(b: seq<byte>, m: FileMeta)
    ensures Accepts(b) && Parsed(b) == m <==> Agrees(b, m)
  {
    hide Accepts, Parsed, Encode, HeaderIn, RowIn, LengthSum, Ignored;
    FieldsInIff(b, m);
    if |m.chunks| < TWO_32 && LengthSum(m.chunks) == m.logicalSize {
      RoundTripIff(m);
      FieldsInIff(Encode(m), m);
      assert RowCount(m) == |m.chunks|;
      if |Encode(m)| <= |b| {
        FieldsAgree(b, Encode(m), m);
      }
    }
  }

  // ---------------------------------------------------------------- the format in bytes

  lemma FromLEStep(s: seq<byte>)
    requires s != []
    ensures FromLE(s) == s[0] as nat + 256 * FromLE(s[1..])
  {
  }

  lemma U32Is(b: seq<byte>, at: nat)
    requires at + 4 <= |b|
    ensures U32At(b, at) ==
            b[at] as nat + 0x100 * b[at + 1] as nat + 0x1_0000 * b[at + 2] as nat + 0x100_0000 * b[at + 3] as nat
  {
    FourBytes(b[at..at + 4]);
    hide FromLE;
  }

  lemma FourBytes(s: seq<byte>)
    requires 4 <= |s|
    ensures FromLE(s) == s[0] as nat + 0x100 * s[1] as nat + 0x1_0000 * s[2] as nat + 0x100_0000 * s[3] as nat
                         + 0x1_0000_0000 * FromLE(s[4..])
  {
    FromLEStep(s);
    FromLEStep(s[1..]);
    FromLEStep(s[2..]);
    FromLEStep(s[3..]);
    hide FromLE;
    assert s[1..][1..] == s[2..] && s[2..][1..] == s[3..] && s[3..][1..] == s[4..];
  }

  lemma U64Is(b: seq<byte>, at: nat)
    requires at + 8 <= |b|
    ensures U64At(b, at) == U32At(b, at) + 0x1_0000_0000 * U32At(b, at + 4)
  {
    FourBytes(b[at..at + 8]);
    FourBytes(b[at..at + 8][4..]);
    U32Is(b, at);
    U32Is(b, at + 4);
    hide FromLE, U32At;
    assert b[at..at + 8][4..] == b[at + 4..at + 8];
  }

  lemma HeaderTail(size: u64, count: u32, rest: seq<byte>)
    ensures var b := Header(size, count) + rest; b[6..8] == LE(0, 2) && b[24..64] == LE(1, 4) + LE(0, 4) + Zeros(32)
  {
    hide LE, Zeros;
    var p := META_MAGIC + LE(META_VERSION, 1) + LE(META_CODEC_ID_ZSTD, 1);
    var mid := LE(size, 8) + LE(CHUNK_SIZE, 4) + LE(count, 4);
    var tail := LE(1, 4) + LE(0, 4) + Zeros(32);
    assert Header(size, count) + rest == p + LE(0, 2) + mid + tail + rest;
    FieldAt(p + LE(0, 2) + mid + tail + rest, p, LE(0, 2), mid + tail + rest);
    FieldAt(p + LE(0, 2) + mid + tail + rest, p + LE(0, 2) + mid, tail, rest);
  }

  lemma HeaderBytes(size: u64, count: u32, rest: seq<byte>)
    ensures var b := Header(size, count) + rest;
            && b[..8] == [0x43, 0x46, 0x4D, 0x31, 0x01, 0x01, 0x00, 0x00] && b[16..20] == [0x00, 0x10, 0x00, 0x00]
            && b[24..64] == [0x01, 0x00, 0x00, 0x00, 0x00, 0x00, 0x00, 0x00] + Zeros(32)
  {
    HeaderSlices(size, count, rest);
    HeaderTail(size, count, rest);
    SmallLE();
    hide Header, LE, Zeros;
    var b := Header(size, count) + rest;
    assert b[..8] == b[..4] + [b[4], b[5]] + b[6..8];
  }

  /** The header as bytes. */
  lemma EncodedHeader(m: FileMeta)
    ensures var b := Encode(m);
            && b[..8] == [0x43, 0x46, 0x4D, 0x31, 0x01, 0x01, 0x00, 0x00] && b[16..20] == [0x00, 0x10, 0x00, 0x00]
            && b[24..64] == [0x01, 0x00, 0x00, 0x00, 0x00, 0x00, 0x00, 0x00] + Zeros(32)
            && U64At(b, 8) == m.logicalSize && U32At(b, 20) == |m.chunks| % 0x1_0000_0000
  {
    hide Header, Rows, U32At, U64At, Zeros;
    HeaderBytes(m.logicalSize, RowCount(m), Rows(m.chunks, RowCount(m)));
    EncodedIs(m);
  }

  lemma SmallLE()
    ensures LE(1, 1) == [1] && LE(0, 2) == [0, 0] && LE(1, 4) == [1, 0, 0, 0] && LE(0, 4) == [0, 0, 0, 0]
    ensures LE(4096, 4) == [0x00, 0x10, 0x00, 0x00]
  {
    assert LE(0, 3) == [0, 0, 0] && LE(16, 3) == [16, 0, 0];
  }

  /** And row `i`. */
  lemma EncodedRowBytes(m: FileMeta, i: nat)
    requires i < RowCount(m)
    ensures var b, at, c := Encode(m), 64 + 24 * i, m.chunks[i];
            && U32At(b, at) == i && U32At(b, at + 4) == c.logicalLength && U64At(b, at + 8) == c.dataOffset
            && U32At(b, at + 16) == c.compressedSize && b[at + 20..at + 24] == [0, 0, 0, 0]
  {
    hide Encode, RowCount, U32At, U64At;
    EncodedRow(m, i);
    EncodedPadding(m, i);
  }

  lemma EncodedPadding(m: FileMeta, i: nat)
    requires i < RowCount(m)
    ensures Encode(m)[64 + 24 * i + 20..64 + 24 * i + 24] == [0, 0, 0, 0]
  {
    hide Row, Rows, Header;
    var h, n, left := Header(m.logicalSize, RowCount(m)), RowCount(m), Rows(m.chunks, i);
    var post := Rows(m.chunks, n)[META_ENTRY_SIZE * (i + 1)..];
    RowsSplit(m.chunks, n, i);
    assert Encode(m) == (h + left) + Row(i, m.chunks[i]) + post;
    RowPadding(h + left, i, m.chunks[i], post);
  }

  lemma RowPadding(pre: seq<byte>, i: u32, cm: ChunkMeta, post: seq<byte>)
    ensures (pre + Row(i, cm) + post)[|pre| + 20..|pre| + 24] == [0, 0, 0, 0]
  {
    SmallLE();
    hide LE;
    var f := LE(i, 4) + LE(cm.logicalLength, 4) + LE(cm.dataOffset, 8) + LE(cm.compressedSize, 4);
    assert pre + Row(i, cm) + post == (pre + f) + LE(0, 4) + post;
    FieldAt(pre + Row(i, cm) + post, pre + f, LE(0, 4), post);
  }
}
