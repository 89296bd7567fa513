/** Whole-file persistence by renames: data file, metadata file, index; and what a crash in between leaves behind. */
module Persistence {
  import opened Bytes
  import opened ChunkedFile
  import opened CompressLib
  import opened BinaryMeta
  import Listing

  /** The files of the store; the ids are those of `file_id_from_path`. */
  datatype BinName = MetaFile(id: string) | MetaTmp(id: string) | DataFile(id: string) | DataTmp(id: string)

  datatype TextName = IndexFile | IndexTmp

  type Bin = map<BinName, seq<byte>>

  datatype Disk = Disk(bin: Bin, text: map<TextName, string>)

  datatype Store = Store(z: Codec, idOf: string -> string)

  /** `Unreadable` is a load that returns false. */
  datatype LoadResult = Unreadable | Read(content: Unpacked)

  // ---------------------------------------------------------------- packed blobs

  function Concat(cs: seq<seq<byte>>): seq<byte>
  {
    if cs == [] then [] else Concat(cs[..|cs| - 1]) + cs[|cs| - 1]
  }

  function Offset(cs: seq<seq<byte>>, i: nat): nat
    requires i <= |cs|
  {
    |Concat(cs[..i])|
  }

  lemma {:induction false} ConcatSlice(cs: seq<seq<byte>>, i: nat)
    requires i < |cs|
    ensures Offset(cs, i) + |cs[i]| <= |Concat(cs)|
    ensures Concat(cs)[Offset(cs, i)..Offset(cs, i) + |cs[i]|] == cs[i]
  {
    var init := cs[..|cs| - 1];
    if i < |cs| - 1 {
      ConcatSlice(init, i);
      assert init[..i] == cs[..i];
    }
  }

  lemma {:induction false} ConcatBound(cs: seq<seq<byte>>, bound: nat)
    requires forall c :: c in cs ==> |c| <= bound
    ensures |Concat(cs)| <= |cs| * bound
  {
    if cs != [] {
      ConcatBound(cs[..|cs| - 1], bound);
      assert |cs| * bound == (|cs| - 1) * bound + bound;
    }
  }

  // ---------------------------------------------------------------- what is stored for a content

  function Blobs(z: Codec, data: seq<byte>): seq<seq<byte>>
  {
    Compressed(z, Pieces(CHUNK_SIZE, data, 0))
  }

  function RowLength(size: nat, i: nat): u32
  {
    Max(0, Min(CHUNK_SIZE, size - CHUNK_SIZE * i))
  }

  function RowOf(size: nat, cs: seq<seq<byte>>, i: nat): ChunkMeta
    requires i < |cs|
  {
    ChunkMeta(RowLength(size, i), Offset(cs, i) % TWO_64, |cs[i]| % TWO_32)
  }

  function RowsOf(size: nat, cs: seq<seq<byte>>, n: nat): (rows: seq<ChunkMeta>)
    requires n <= |cs|
    ensures |rows| == n
  {
    seq(n, i requires 0 <= i < n => RowOf(size, cs, i))
  }

  function MetaOf(z: Codec, data: seq<byte>): FileMeta
    requires |data| < TWO_64
  {
    FileMeta(|data|, RowsOf(|data|, Blobs(z, data), |Blobs(z, data)|))
  }

  lemma BlobCount(z: Codec, data: seq<byte>)
    ensures |Blobs(z, data)| == CeilDiv(|data|, CHUNK_SIZE)
    ensures forall b :: b in Blobs(z, data) ==> 0 < |b| <= 4176
  {
    AlignedPieces(CHUNK_SIZE, data, 0);
    SplitCount(CHUNK_SIZE, data);
    forall i | 0 <= i < |Blobs(z, data)| ensures 0 < |Blobs(z, data)[i]| <= 4176 {
      var p := Pieces(CHUNK_SIZE, data, 0)[i];
      assert |p| <= CHUNK_SIZE;
      assert 0 < |z.compress(p)| <= |p| + |p| / 256 + 64;
    }
  }

  lemma {:induction false} RowLengthSum(size: nat, cs: seq<seq<byte>>, n: nat)
    requires n <= |cs| == CeilDiv(size, CHUNK_SIZE)
    ensures LengthSum(RowsOf(size, cs, n)) == Min(CHUNK_SIZE * n, size)
  {
    if n > 0 {
      RowLengthSum(size, cs, n - 1);
      assert RowsOf(size, cs, n)[..n - 1] == RowsOf(size, cs, n - 1);
      CeilDivIs(size, n - 1, CHUNK_SIZE);
    }
  }

  // ---------------------------------------------------------------- load

  /** `seekg` fails on an offset that is negative as a signed number, a read fails when it comes up short. */
  predicate Readable(data: seq<byte>, row: ChunkMeta)
  {
    row.dataOffset < TWO_64 / 2 && (row.compressedSize == 0 || row.dataOffset + row.compressedSize <= |data|)
  }

  function BlobAt(data: seq<byte>, row: ChunkMeta): seq<byte>
    requires Readable(data, row)
  {
    if row.compressedSize == 0 then [] else data[row.dataOffset..row.dataOffset + row.compressedSize]
  }

  function ReadBlobs(data: seq<byte>, rows: seq<ChunkMeta>): Option<seq<seq<byte>>>
  {
    if forall i :: 0 <= i < |rows| ==> Readable(data, rows[i])
    then Some(seq(|rows|, i requires 0 <= i < |rows| => BlobAt(data, rows[i])))
    else None
  }

  lemma ReadBlobsIs(data: seq<byte>, rows: seq<ChunkMeta>, cs: seq<seq<byte>>)
    requires |cs| == |rows|
    requires forall i :: 0 <= i < |rows| ==> Readable(data, rows[i]) && cs[i] == BlobAt(data, rows[i])
    ensures ReadBlobs(data, rows) == Some(cs)
  {
    var got := ReadBlobs(data, rows);
    assert got.Some? && |got.value| == |cs|;
    assert got.value == cs;
  }

  predicate Exists(S: Store, bin: Bin, path: string)
  {
    MetaFile(S.idOf(path)) in bin
  }

  function LoadFile(S: Store, bin: Bin, path: string): LoadResult
  {
    var id := S.idOf(path);
    if MetaFile(id) !in bin || !Accepts(bin[MetaFile(id)]) || DataFile(id) !in bin then Unreadable
    else
      var m := Parsed(bin[MetaFile(id)]);
      match ReadBlobs(bin[DataFile(id)], m.chunks)
      case None => Unreadable
      case Some(cs) => Read(Unpack(S.z, CHUNK_SIZE, cs, 0, m.logicalSize))
  }

  method LoadLogicalFile(S: Store, bin: Bin, path: string) returns (r: LoadResult)
    ensures r == LoadFile(S, bin, path)
  {
    hide Accepts, Parsed, Unpack, Agrees;
    var id := S.idOf(path);
    if MetaFile(id) !in bin {
      return Unreadable;
    }
    var loaded := LoadMeta(bin[MetaFile(id)]);
    if loaded == None || DataFile(id) !in bin {
      return Unreadable;
    }
    var m, data := loaded.value, bin[DataFile(id)];
    var cs: seq<seq<byte>> := [];
    var i := 0;
    while i < |m.chunks|
      invariant 0 <= i <= |m.chunks| && |cs| == i
      invariant forall j :: 0 <= j < i ==> Readable(data, m.chunks[j]) && cs[j] == BlobAt(data, m.chunks[j])
    {
      var row := m.chunks[i];
      if !Readable(data, row) {
        return Unreadable;
      }
      cs := cs + [BlobAt(data, row)];
      i := i + 1;
    }
    ReadBlobsIs(data, m.chunks, cs);
    var content := DecompressFileChunks(S.z, CHUNK_SIZE, cs, 0, m.logicalSize);
    r := Read(content);
  }

  // ---------------------------------------------------------------- the round trip

  ghost predicate Holds(S: Store, bin: Bin, path: string, data: seq<byte>)
    requires |data| < TWO_64
  {
    var id := S.idOf(path);
    && MetaFile(id) in bin && bin[MetaFile(id)] == Encode(MetaOf(S.z, data))
    && DataFile(id) in bin && bin[DataFile(id)] == Concat(Blobs(S.z, data))
  }

  lemma BlobsReadBack(z: Codec, data: seq<byte>)
    requires |data| < TWO_64 && |Blobs(z, data)| < TWO_32
    ensures ReadBlobs(Concat(Blobs(z, data)), MetaOf(z, data).chunks) == Some(Blobs(z, data))
  {
    hide Blobs, Concat, Readable, BlobAt, ReadBlobs;
    var cs, rows := Blobs(z, data), MetaOf(z, data).chunks;
    BlobCount(z, data);
    ConcatBound(cs, 4176);
    forall i | 0 <= i < |cs| ensures Readable(Concat(cs), rows[i]) && BlobAt(Concat(cs), rows[i]) == cs[i] {
      RowReadsBack(|data|, cs, i);
    }
    ReadBlobsIs(Concat(cs), rows, cs);
  }

  lemma RowReadsBack(size: nat, cs: seq<seq<byte>>, i: nat)
    requires i < |cs| && |Concat(cs)| < TWO_64 / 2 && 0 < |cs[i]| < TWO_32
    ensures var row := RowOf(size, cs, i); Readable(Concat(cs), row) && BlobAt(Concat(cs), row) == cs[i]
  {
    ConcatSlice(cs, i);
    hide Concat, Offset, RowLength;
    var o, row := Offset(cs, i), RowOf(size, cs, i);
    assert row.dataOffset == o && row.compressedSize == |cs[i]|;
  }

  lemma WholeContent(z: Codec, data: seq<byte>)
    ensures Unpack(z, CHUNK_SIZE, Blobs(z, data), 0, |data|) == Ok(data)
  {
    RoundTripIffAligned(z, CHUNK_SIZE, data, 0);
  }

  /**
   Loading after persisting returns exactly the content, through chunking, packing, the binary table, the seeks and
   dechunking, precisely when the chunk count fits 32 bits; otherwise the load is refused.
   */
  lemma PersistLoadIff(S: Store, bin: Bin, path: string, data: seq<byte>)
    requires |data| < TWO_64 && Holds(S, bin, path, data)
    ensures LoadFile(S, bin, path) == Read(Ok(data)) <==> CeilDiv(|data|, CHUNK_SIZE) < TWO_32
    ensures CeilDiv(|data|, CHUNK_SIZE) >= TWO_32 ==> LoadFile(S, bin, path) == Unreadable
  {
    hide Concat, Blobs, Encode, Accepts, Parsed, LengthSum, ReadBlobs;
    var cs, m := Blobs(S.z, data), MetaOf(S.z, data);
    BlobCount(S.z, data);
    EncodedIs(m);
    RowLengthSum(|data|, cs, RowCount(m));
    assert m.chunks[..RowCount(m)] == RowsOf(|data|, cs, RowCount(m));
    if |cs| < TWO_32 {
      RowLengthSum(|data|, cs, |cs|);
      CeilDivBounds(|data|, CHUNK_SIZE);
      RoundTripIff(m);
      BlobsReadBack(S.z, data);
      WholeContent(S.z, data);
    } else {
      CeilDivIs(|data|, RowCount(m), CHUNK_SIZE);
    }
  }

  // ---------------------------------------------------------------- the disk, one operation at a time

  /** The backing store; `history` is every state it has been in after an operation. */
  class Backing {
    var disk: Disk
    ghost var history: seq<Disk>

    constructor (disk: Disk)
      ensures this.disk == disk && history == [disk]
    {
      this.disk := disk;
      history := [disk];
    }

    method Put(n: BinName, b: seq<byte>)
      modifies this
      ensures disk == old(disk).(bin := old(disk).bin[n := b]) && history == old(history) + [disk]
    {
      disk := disk.(bin := disk.bin[n := b]);
      history := history + [disk];
    }

    method Append(n: BinName, b: seq<byte>)
      requires n in disk.bin
      modifies this
      ensures disk == old(disk).(bin := old(disk).bin[n := old(disk).bin[n] + b]) && history == old(history) + [disk]
    {
      disk := disk.(bin := disk.bin[n := disk.bin[n] + b]);
      history := history + [disk];
    }

    method Remove(n: BinName)
      modifies this
      ensures disk == old(disk).(bin := Without(old(disk).bin, n)) && history == old(history) + [disk]
    {
      disk := disk.(bin := Without(disk.bin, n));
      history := history + [disk];
    }

    method Rename(from: BinName, to: BinName)
      requires from in disk.bin && from != to
      modifies this
      ensures disk == old(disk).(bin := Without(old(disk).bin, from)[to := old(disk).bin[from]])
      ensures history == old(history) + [disk]
    {
      disk := disk.(bin := Without(disk.bin, from)[to := disk.bin[from]]);
      history := history + [disk];
    }

    method PutText(n: TextName, t: string)
      modifies this
      ensures disk == old(disk).(text := old(disk).text[n := t]) && history == old(history) + [disk]
    {
      disk := disk.(text := disk.text[n := t]);
      history := history + [disk];
    }

    method RenameIndex()
      requires IndexTmp in disk.text
      modifies this
      ensures disk == old(disk).(text := map[IndexFile := old(disk).text[IndexTmp]]) && history == old(history) + [disk]
    {
      disk := disk.(text := map[IndexFile := disk.text[IndexTmp]]);
      history := history + [disk];
    }
  }

  function IndexText(d: Disk): string
  {
    if IndexFile in d.text then d.text[IndexFile] else ""
  }

  ghost function IndexSet(d: Disk): set<string>
  {
    Listing.IndexOf(Listing.Lines(IndexText(d)))
  }

  /** A missing index file is an empty index. */
  lemma NoIndexYet(d: Disk)
    requires IndexFile !in d.text
    ensures IndexSet(d) == {}
  {
    assert Listing.Lines("") == [];
    hide Listing.Lines;
    assert Listing.IndexOf([]) == {};
  }

  ghost predicate SameAt(bin: Bin, bin0: Bin, n: BinName)
  {
    (n in bin <==> n in bin0) && (n in bin ==> bin[n] == bin0[n])
  }

  /**
   A state on the way from `bin0` to a persisted file: other files are as before, the data file is old or new, and
   the metadata is new only once the data is.
   */
  ghost predicate Between(id: string, bin0: Bin, bin: Bin, data: seq<byte>, meta: seq<byte>)
  {
    && (forall n: BinName :: n.id != id ==> SameAt(bin, bin0, n))
    && (SameAt(bin, bin0, DataFile(id)) || (DataFile(id) in bin && bin[DataFile(id)] == data))
    && (SameAt(bin, bin0, MetaFile(id)) ||
        (MetaFile(id) in bin && bin[MetaFile(id)] == meta && DataFile(id) in bin && bin[DataFile(id)] == data))
  }

  /** The last state: both files are new. */
  ghost predicate Stored(id: string, bin0: Bin, bin: Bin, data: seq<byte>, meta: seq<byte>)
  {
    && Between(id, bin0, bin, data, meta)
    && MetaFile(id) in bin && bin[MetaFile(id)] == meta && DataFile(id) in bin && bin[DataFile(id)] == data
  }

  /** The state between the two renames: new data behind old metadata. */
  ghost predicate Torn(id: string, bin0: Bin, bin: Bin, data: seq<byte>)
  {
    SameAt(bin, bin0, MetaFile(id)) && DataFile(id) in bin && bin[DataFile(id)] == data
  }

  ghost predicate AllBetween(id: string, bin0: Bin, ds: seq<Disk>, data: seq<byte>, meta: seq<byte>)
  {
    forall i :: 0 <= i < |ds| ==> Between(id, bin0, ds[i].bin, data, meta)
  }

  /** `save_index_atomic` on the given entries. */
  method ReplaceIndex(B: Backing, entries: set<string>)
    modifies B
    ensures B.disk.bin == old(B.disk.bin) && Indexes(B.disk, entries)
    ensures old(B.history) <= B.history
    ensures forall i :: |old(B.history)| <= i < |B.history| ==> B.history[i].bin == old(B.disk.bin)
  {
    var text, order := Listing.SaveIndex(entries);
    B.PutText(IndexTmp, text);
    B.RenameIndex();
    assert IndexText(B.disk) == Listing.Written(order);
  }

  /** The index file lists exactly these entries, each on its own line. */
  ghost predicate Indexes(d: Disk, entries: set<string>)
  {
    exists order :: IndexText(d) == Listing.Written(order) && Listing.Elements(order) == entries
  }

  method AddIndexEntry(B: Backing, path: string)
    modifies B
    ensures B.disk.bin == old(B.disk.bin) && Indexes(B.disk, old(IndexSet(B.disk)) + {path})
    ensures old(B.history) <= B.history
    ensures forall i :: |old(B.history)| <= i < |B.history| ==> B.history[i].bin == old(B.disk.bin)
  {
    var entries := Listing.LoadIndex(IndexText(B.disk));
    ReplaceIndex(B, entries + {path});
  }

  method RemoveIndexEntry(B: Backing, path: string)
    modifies B
    ensures B.disk.bin == old(B.disk.bin) && Indexes(B.disk, old(IndexSet(B.disk)) - {path})
    ensures old(B.history) <= B.history
    ensures forall i :: |old(B.history)| <= i < |B.history| ==> B.history[i].bin == old(B.disk.bin)
  {
    var entries := Listing.LoadIndex(IndexText(B.disk));
    ReplaceIndex(B, entries - {path});
  }

  lemma HistoryGrows(id: string, bin0: Bin, h: seq<Disk>, k: nat, d: Disk, data: seq<byte>, meta: seq<byte>)
    requires k <= |h| && AllBetween(id, bin0, h[k..], data, meta) && Between(id, bin0, d.bin, data, meta)
    ensures AllBetween(id, bin0, (h + [d])[k..], data, meta)
  {
    assert (h + [d])[k..] == h[k..] + [d];
  }

  lemma TmpBetween(id: string, bin0: Bin, bin: Bin, n: BinName, b: seq<byte>, data: seq<byte>, meta: seq<byte>)
    requires Between(id, bin0, bin, data, meta) && n.id == id && n != DataFile(id) && n != MetaFile(id)
    ensures Between(id, bin0, bin[n := b], data, meta)
  {
  }

  lemma DataRenamed(id: string, bin0: Bin, data: seq<byte>, meta: seq<byte>)
    ensures var bin := Without(bin0[DataTmp(id) := data], DataTmp(id))[DataFile(id) := data];
            Between(id, bin0, bin, data, meta) && SameAt(bin, bin0, MetaFile(id))
  {
  }

  lemma MetaRenamed(id: string, bin0: Bin, bin: Bin, data: seq<byte>, meta: seq<byte>)
    requires Between(id, bin0, bin, data, meta) && DataFile(id) in bin && bin[DataFile(id)] == data
    ensures Stored(id, bin0, Without(bin[MetaTmp(id) := meta], MetaTmp(id))[MetaFile(id) := meta], data, meta)
  {
  }

  lemma Unchanged(id: string, bin: Bin, data: seq<byte>, meta: seq<byte>)
    ensures Between(id, bin, bin, data, meta)
  {
  }

  method WriteData(B: Backing, id: string, cs: seq<seq<byte>>, ghost meta: seq<byte>)
    modifies B
    ensures Between(id, old(B.disk.bin), B.disk.bin, Concat(cs), meta)
    ensures SameAt(B.disk.bin, old(B.disk.bin), MetaFile(id))
    ensures DataFile(id) in B.disk.bin && B.disk.bin[DataFile(id)] == Concat(cs)
    ensures B.disk.text == old(B.disk.text)
    ensures old(B.history) < B.history && B.history[|B.history| - 1] == B.disk
    ensures AllBetween(id, old(B.disk.bin), B.history[|old(B.history)|..], Concat(cs), meta)
  {
    hide Between, SameAt, AllBetween, Concat;
    ghost var start, data, k := B.disk.bin, Concat(cs), |B.history|;
    NoBlobs([]);
    NoHistory(id, start, B.history, data, meta);
    Unchanged(id, start, data, meta);
    TmpBetween(id, start, start, DataTmp(id), [], data, meta);
    B.Put(DataTmp(id), []);
    HistoryGrows(id, start, old(B.history), k, B.disk, data, meta);
    var i := 0;
    while i < |cs|
      invariant 0 <= i <= |cs|
      invariant B.disk.bin == start[DataTmp(id) := Concat(cs[..i])] && B.disk.text == old(B.disk.text)
      invariant k <= |B.history| && old(B.history) <= B.history
      invariant AllBetween(id, start, B.history[k..], data, meta)
    {
      ghost var before := B.history;
      B.Append(DataTmp(id), cs[i]);
      ConcatStep(cs, i);
      TmpBetween(id, start, start, DataTmp(id), Concat(cs[..i + 1]), data, meta);
      assert B.disk.bin == start[DataTmp(id) := Concat(cs[..i + 1])];
      HistoryGrows(id, start, before, k, B.disk, data, meta);
      i := i + 1;
    }
    assert cs[..i] == cs;
    ghost var before := B.history;
    DataRenamed(id, start, data, meta);
    B.Rename(DataTmp(id), DataFile(id));
    HistoryGrows(id, start, before, k, B.disk, data, meta);
  }

  lemma NoHistory(id: string, bin0: Bin, h: seq<Disk>, data: seq<byte>, meta: seq<byte>)
    ensures AllBetween(id, bin0, h[|h|..], data, meta)
  {
  }

  lemma ConcatStep(cs: seq<seq<byte>>, i: nat)
    requires i < |cs|
    ensures Concat(cs[..i + 1]) == Concat(cs[..i]) + cs[i]
  {
    assert cs[..i + 1][..i] == cs[..i];
  }

  /** `save_meta_atomic`, once the data file is in place. */
  method WriteMeta(B: Backing, id: string, m: FileMeta, ghost bin0: Bin, ghost data: seq<byte>)
    requires Between(id, bin0, B.disk.bin, data, Encode(m))
    requires DataFile(id) in B.disk.bin && B.disk.bin[DataFile(id)] == data
    modifies B
    ensures Stored(id, bin0, B.disk.bin, data, Encode(m)) && B.disk.text == old(B.disk.text)
    ensures old(B.history) <= B.history
    ensures AllBetween(id, bin0, B.history[|old(B.history)|..], data, Encode(m))
  {
    hide Encode, Between, AllBetween;
    ghost var meta, k := Encode(m), |B.history|;
    NoHistory(id, bin0, B.history, data, meta);
    var bytes := SaveMeta(m);
    TmpBetween(id, bin0, B.disk.bin, MetaTmp(id), bytes, data, meta);
    MetaRenamed(id, bin0, B.disk.bin, data, meta);
    B.Put(MetaTmp(id), bytes);
    HistoryGrows(id, bin0, old(B.history), k, B.disk, data, meta);
    ghost var before := B.history;
    B.Rename(MetaTmp(id), MetaFile(id));
    HistoryGrows(id, bin0, before, k, B.disk, data, meta);
  }

  /** The rows that `persist_logical_file` records while it writes the blobs. */
  method TableOf(size: nat, cs: seq<seq<byte>>) returns (rows: seq<ChunkMeta>)
    requires |cs| == CeilDiv(size, CHUNK_SIZE)
    ensures rows == RowsOf(size, cs, |cs|)
  {
    hide CeilDiv, Concat, RowsOf, Offset;
    rows := [];
    var offset: nat, consumed: nat := 0, 0;
    var i := 0;
    assert cs[..0] == [];
    NoRows(size, cs);
    while i < |cs|
      invariant 0 <= i <= |cs| && rows == RowsOf(size, cs, i)
      invariant consumed == Min(CHUNK_SIZE * i, size) && offset == Offset(cs, i) % TWO_64
    {
      CeilDivIs(size, i, CHUNK_SIZE);
      OffsetStep(cs, i);
      var length := Min(CHUNK_SIZE, size - consumed);
      RowsStep(size, cs, i);
      rows := rows + [ChunkMeta(length, offset, |cs[i]| % TWO_32)];
      consumed, offset := consumed + length, (offset + |cs[i]|) % TWO_64;
      i := i + 1;
    }
  }

  lemma NoBlobs(cs: seq<seq<byte>>)
    requires cs == []
    ensures Concat(cs) == []
  {
  }

  lemma NoRows(size: nat, cs: seq<seq<byte>>)
    ensures Offset(cs, 0) == 0 && RowsOf(size, cs, 0) == []
  {
    assert cs[..0] == [];
  }

  lemma RowsStep(size: nat, cs: seq<seq<byte>>, i: nat)
    requires i < |cs|
    ensures RowsOf(size, cs, i + 1) == RowsOf(size, cs, i) + [RowOf(size, cs, i)]
  {
    hide RowOf;
  }

  lemma OffsetStep(cs: seq<seq<byte>>, i: nat)
    requires i < |cs|
    ensures Offset(cs, i + 1) == Offset(cs, i) + |cs[i]|
  {
    assert cs[..i + 1][..i] == cs[..i];
  }

  /**
   `persist_logical_file`. The bytes are stored, the path is indexed, and no disk operation on the way leaves
   anything but an old or a new file behind; files with other ids are never touched.
   */
  method PersistLogicalFile(S: Store, B: Backing, path: string, data: seq<byte>)
    requires |data| < TWO_64
    modifies B
    ensures var id, blob, meta := S.idOf(path), Concat(Blobs(S.z, data)), Encode(MetaOf(S.z, data));
            && Stored(id, old(B.disk.bin), B.disk.bin, blob, meta)
            && old(B.history) <= B.history
            && AllBetween(id, old(B.disk.bin), B.history[|old(B.history)|..], blob, meta)
            && exists i :: |old(B.history)| <= i < |B.history| && Torn(id, old(B.disk.bin), B.history[i].bin, blob)
    ensures Indexes(B.disk, old(IndexSet(B.disk)) + {path})
  {
    hide Concat, Blobs, Encode, Between, Indexes, RowsOf, CeilDiv;
    BlobCount(S.z, data);
    var cs := CompressFileChunks(S.z, CHUNK_SIZE, data, 0);
    var id := S.idOf(path);
    ghost var bin0, blob, m := B.disk.bin, Concat(cs), MetaOf(S.z, data);
    assert cs == Blobs(S.z, data) by {
      BlobsIs(S.z, data);
    }
    WriteData(B, id, cs, Encode(m));
    assert Torn(id, bin0, B.history[|B.history| - 1].bin, blob);
    var rows := TableOf(|data|, cs);
    WriteMeta(B, id, FileMeta(|data|, rows), bin0, blob);
    AddIndexEntry(B, path);
  }

  lemma BlobsIs(z: Codec, data: seq<byte>)
    ensures Blobs(z, data) == Compressed(z, Pieces(CHUNK_SIZE, data, 0))
  {
  }

  // ---------------------------------------------------------------- crashes

  lemma BetweenLoads(S: Store, bin0: Bin, bin: Bin, path: string, data: seq<byte>)
    requires |data| < TWO_64 && CeilDiv(|data|, CHUNK_SIZE) < TWO_32
    requires !Exists(S, bin0, path)
    requires Between(S.idOf(path), bin0, bin, Concat(Blobs(S.z, data)), Encode(MetaOf(S.z, data)))
    ensures Exists(S, bin, path) ==> LoadFile(S, bin, path) == Read(Ok(data))
  {
    hide Concat, Blobs, Encode, LoadFile;
    if Exists(S, bin, path) {
      PersistLoadIff(S, bin, path, data);
    }
  }

  /** Files of other paths load alike in any state in between. */
  lemma OthersLoad(S: Store, bin0: Bin, bin: Bin, id: string, data: seq<byte>, meta: seq<byte>, other: string)
    requires Between(id, bin0, bin, data, meta) && S.idOf(other) != id
    ensures LoadFile(S, bin, other) == LoadFile(S, bin0, other)
    ensures Exists(S, bin, other) == Exists(S, bin0, other)
  {
    hide Accepts, Parsed, Unpack, ReadBlobs;
    assert SameAt(bin, bin0, MetaFile(S.idOf(other))) && SameAt(bin, bin0, DataFile(S.idOf(other)));
  }

  /**
   A crash anywhere in the first persist of a path leaves it absent or complete: at every disk state passed
   through, either the path does not exist, or loading it returns the whole content.
   */
  method PersistNewFile(S: Store, B: Backing, path: string, data: seq<byte>)
    requires |data| < TWO_64 && CeilDiv(|data|, CHUNK_SIZE) < TWO_32
    requires !Exists(S, B.disk.bin, path)
    modifies B
    ensures old(B.history) <= B.history
    ensures forall i :: |old(B.history)| <= i < |B.history| ==>
              Exists(S, B.history[i].bin, path) ==> LoadFile(S, B.history[i].bin, path) == Read(Ok(data))
    ensures LoadFile(S, B.disk.bin, path) == Read(Ok(data))
  {
    hide Concat, Blobs, Encode, LoadFile, Between;
    ghost var bin0, h := B.disk.bin, |B.history|;
    PersistLogicalFile(S, B, path, data);
    forall i | h <= i < |B.history|
      ensures Exists(S, B.history[i].bin, path) ==> LoadFile(S, B.history[i].bin, path) == Read(Ok(data))
    {
      assert B.history[i] == B.history[h..][i - h];
      BetweenLoads(S, bin0, B.history[i].bin, path, data);
    }
    BetweenLoads(S, bin0, B.disk.bin, path, data);
  }

  /** `cfs_unlink` of a logical file: metadata, then data, then the index entry. */
  method UnlinkLogicalFile(S: Store, B: Backing, path: string) returns (ok: bool)
    modifies B
    ensures ok == old(Exists(S, B.disk.bin, path))
    ensures ok ==> B.disk.bin == Without(Without(old(B.disk.bin), MetaFile(S.idOf(path))), DataFile(S.idOf(path)))
    ensures ok ==> Indexes(B.disk, old(IndexSet(B.disk)) - {path})
    ensures !ok ==> B.disk == old(B.disk)
    ensures old(B.history) <= B.history
    ensures forall i :: |old(B.history)| <= i < |B.history| ==> !Exists(S, B.history[i].bin, path)
  {
    var id := S.idOf(path);
    if MetaFile(id) !in B.disk.bin {
      return false;
    }
    B.Remove(MetaFile(id));
    B.Remove(DataFile(id));
    RemoveIndexEntry(B, path);
    ok := true;
  }

  // ---------------------------------------------------------------- overwriting

  /** A content that `persist_logical_file` can bring back. */
  predicate Fits(data: seq<byte>)
  {
    |data| < TWO_64 && CeilDiv(|data|, CHUNK_SIZE) < TWO_32
  }

  /** In bytes, 16 TiB less one chunk. */
  lemma FitsIs(data: seq<byte>)
    ensures Fits(data) <==> |data| <= 17_592_186_040_320
  {
    CeilDivBounds(|data|, CHUNK_SIZE);
  }

  /** The metadata of one content over the packed blobs of another. */
  ghost predicate OldTable(S: Store, bin: Bin, path: string, before: seq<byte>, packed: seq<byte>)
    requires |before| < TWO_64
  {
    var id := S.idOf(path);
    && MetaFile(id) in bin && bin[MetaFile(id)] == Encode(MetaOf(S.z, before))
    && DataFile(id) in bin && bin[DataFile(id)] == packed
  }

  lemma MetaLoads(z: Codec, data: seq<byte>)
    requires Fits(data)
    ensures Accepts(Encode(MetaOf(z, data))) && Parsed(Encode(MetaOf(z, data))) == MetaOf(z, data)
    ensures |Blobs(z, data)| < TWO_32
  {
    hide Concat, Blobs, Encode, Accepts, Parsed, LengthSum;
    BlobCount(z, data);
    RowLengthSum(|data|, Blobs(z, data), |Blobs(z, data)|);
    CeilDivBounds(|data|, CHUNK_SIZE);
    RoundTripIff(MetaOf(z, data));
  }

  /** Under an old table, loading is reading the old rows from the packed blobs there are. */
  lemma OldTableLoads(S: Store, bin: Bin, path: string, before: seq<byte>, packed: seq<byte>)
    requires Fits(before) && OldTable(S, bin, path, before, packed)
    ensures var rows := MetaOf(S.z, before).chunks;
            LoadFile(S, bin, path) ==
            match ReadBlobs(packed, rows)
            case None => Unreadable
            case Some(cs) => Read(Unpack(S.z, CHUNK_SIZE, cs, 0, |before|))
  {
    MetaLoads(S.z, before);
    hide Accepts, Parsed, Encode, Concat, Blobs, Unpack, ReadBlobs;
  }

  /** A row of the old table is readable exactly when the packed blobs reach its end. */
  lemma RowReadable(size: nat, cs: seq<seq<byte>>, i: nat, packed: seq<byte>)
    requires i < |cs| && |Concat(cs)| < TWO_64 / 2 && 0 < |cs[i]| < TWO_32
    ensures Readable(packed, RowOf(size, cs, i)) <==> Offset(cs, i) + |cs[i]| <= |packed|
    ensures Offset(cs, i) + |cs[i]| <= |Concat(cs)|
    ensures Offset(cs, i) + |cs[i]| <= |packed| ==>
              BlobAt(packed, RowOf(size, cs, i)) == packed[Offset(cs, i)..Offset(cs, i) + |cs[i]|]
  {
    ConcatSlice(cs, i);
    hide Concat, Offset, RowLength;
    var o, row := Offset(cs, i), RowOf(size, cs, i);
    assert row.dataOffset == o && row.compressedSize == |cs[i]|;
  }

  lemma LastEnds(cs: seq<seq<byte>>)
    requires cs != []
    ensures Offset(cs, |cs| - 1) + |cs[|cs| - 1]| == |Concat(cs)|
  {
  }

  lemma PackedBound(z: Codec, data: seq<byte>)
    requires |Blobs(z, data)| < TWO_32
    ensures |Concat(Blobs(z, data))| < TWO_64 / 2
    ensures forall i :: 0 <= i < |Blobs(z, data)| ==> 0 < |Blobs(z, data)[i]| < TWO_32
  {
    BlobCount(z, data);
    ConcatBound(Blobs(z, data), 4176);
    hide Concat, Blobs;
  }

  /** The old rows can all be read exactly when the packed file has not become shorter. */
  lemma RowsReadableIff(z: Codec, before: seq<byte>, packed: seq<byte>)
    requires |before| < TWO_64 && |Blobs(z, before)| < TWO_32
    ensures ReadBlobs(packed, MetaOf(z, before).chunks) == None <==> |packed| < |Concat(Blobs(z, before))|
  {
    hide Blobs, Concat, Offset, Readable, BlobAt;
    var cs, rows := Blobs(z, before), MetaOf(z, before).chunks;
    PackedBound(z, before);
    forall i: nat | i < |cs|
      ensures Readable(packed, rows[i]) <==> Offset(cs, i) + |cs[i]| <= |packed|
      ensures Offset(cs, i) + |cs[i]| <= |Concat(cs)|
    {
      RowReadable(|before|, cs, i, packed);
    }
    if cs != [] {
      LastEnds(cs);
    } else {
      NoBlobs(cs);
    }
  }

  /** New data behind old metadata is refused exactly when the packed blobs have become fewer bytes. */
  lemma TornUnreadableIff(S: Store, bin: Bin, path: string, before: seq<byte>, packed: seq<byte>)
    requires Fits(before) && OldTable(S, bin, path, before, packed)
    ensures LoadFile(S, bin, path) == Unreadable <==> |packed| < |Concat(Blobs(S.z, before))|
  {
    hide LoadFile, ReadBlobs, Concat, Blobs, Unpack, OldTable;
    OldTableLoads(S, bin, path, before, packed);
    MetaLoads(S.z, before);
    RowsReadableIff(S.z, before, packed);
  }

  /** It loads as the new content if both contents have the same table. */
  lemma TornSameTable(S: Store, bin: Bin, path: string, before: seq<byte>, after: seq<byte>)
    requires |before| < TWO_64 && Fits(after) && MetaOf(S.z, before) == MetaOf(S.z, after)
    requires OldTable(S, bin, path, before, Concat(Blobs(S.z, after)))
    ensures LoadFile(S, bin, path) == Read(Ok(after))
  {
    hide LoadFile, Encode, Concat, Blobs;
    PersistLoadIff(S, bin, path, after);
  }

  lemma PrefixBlobs(z: Codec, before: seq<byte>, packed: seq<byte>)
    requires |before| < TWO_64 && |Blobs(z, before)| < TWO_32 && Concat(Blobs(z, before)) <= packed
    ensures ReadBlobs(packed, MetaOf(z, before).chunks) == Some(Blobs(z, before))
  {
    hide Blobs, Concat, Offset, Readable, BlobAt, ReadBlobs;
    var cs, rows := Blobs(z, before), MetaOf(z, before).chunks;
    PackedBound(z, before);
    forall i: nat | i < |cs| ensures Readable(packed, rows[i]) && cs[i] == BlobAt(packed, rows[i]) {
      RowReadable(|before|, cs, i, packed);
      ConcatSlice(cs, i);
      PrefixSlice(Concat(cs), packed, Offset(cs, i), Offset(cs, i) + |cs[i]|);
    }
    ReadBlobsIs(packed, rows, cs);
  }

  lemma PrefixSlice(a: seq<byte>, b: seq<byte>, lo: nat, hi: nat)
    requires a <= b && lo <= hi <= |a|
    ensures a[lo..hi] == b[lo..hi]
  {
    assert b[..|a|] == a;
  }

  /** It loads as the old content if the old packed blobs are a prefix of the new ones. */
  lemma TornPrefix(S: Store, bin: Bin, path: string, before: seq<byte>, packed: seq<byte>)
    requires Fits(before) && OldTable(S, bin, path, before, packed) && Concat(Blobs(S.z, before)) <= packed
    ensures LoadFile(S, bin, path) == Read(Ok(before))
  {
    hide LoadFile, ReadBlobs, Concat, Blobs, Unpack, OldTable;
    OldTableLoads(S, bin, path, before, packed);
    MetaLoads(S.z, before);
    PrefixBlobs(S.z, before, packed);
    WholeContent(S.z, before);
  }

  lemma {:induction false} SplitAppend(data: seq<byte>, more: seq<byte>)
    requires |data| % CHUNK_SIZE == 0
    ensures Split(CHUNK_SIZE, data + more) == Split(CHUNK_SIZE, data) + Split(CHUNK_SIZE, more)
    decreases |data|
  {
    if data == [] {
      assert data + more == more;
    } else {
      assert (data + more)[..CHUNK_SIZE] == data[..CHUNK_SIZE] &&
             (data + more)[CHUNK_SIZE..] == data[CHUNK_SIZE..] + more;
      SplitAppend(data[CHUNK_SIZE..], more);
    }
  }

  lemma {:induction false} ConcatAppend(a: seq<seq<byte>>, b: seq<seq<byte>>)
    ensures Concat(a + b) == Concat(a) + Concat(b)
  {
    if b == [] {
      assert a + b == a;
    } else {
      assert (a + b)[..|a + b| - 1] == a + b[..|b| - 1];
      ConcatAppend(a, b[..|b| - 1]);
    }
  }

  /** Appending to a content of whole chunks appends to its packed blobs, so the old content survives the crash. */
  lemma AppendIsPrefix(z: Codec, before: seq<byte>, more: seq<byte>)
    requires |before| % CHUNK_SIZE == 0
    ensures Concat(Blobs(z, before)) <= Concat(Blobs(z, before + more))
  {
    AlignedPieces(CHUNK_SIZE, before, 0);
    AlignedPieces(CHUNK_SIZE, more, 0);
    AlignedPieces(CHUNK_SIZE, before + more, 0);
    SplitAppend(before, more);
    hide Split, Pieces, Concat;
    assert Blobs(z, before + more) == Blobs(z, before) + Blobs(z, more);
    ConcatAppend(Blobs(z, before), Blobs(z, more));
  }

  lemma LoadDepends(S: Store, bin: Bin, bin': Bin, path: string)
    requires SameAt(bin, bin', MetaFile(S.idOf(path))) && SameAt(bin, bin', DataFile(S.idOf(path)))
    ensures LoadFile(S, bin, path) == LoadFile(S, bin', path)
  {
    hide Accepts, Parsed, Unpack, ReadBlobs;
  }

  /** Every state on the way of an overwrite loads as the old or the new content, or is the one between the renames. */
  lemma OverwriteState(S: Store, bin0: Bin, bin: Bin, path: string, before: seq<byte>, after: seq<byte>)
    requires Fits(before) && Fits(after) && Holds(S, bin0, path, before)
    requires Between(S.idOf(path), bin0, bin, Concat(Blobs(S.z, after)), Encode(MetaOf(S.z, after)))
    ensures || LoadFile(S, bin, path) == Read(Ok(before)) || LoadFile(S, bin, path) == Read(Ok(after))
            || OldTable(S, bin, path, before, Concat(Blobs(S.z, after)))
  {
    hide LoadFile, Concat, Blobs, Encode;
    var id := S.idOf(path);
    if SameAt(bin, bin0, MetaFile(id)) {
      if SameAt(bin, bin0, DataFile(id)) {
        LoadDepends(S, bin, bin0, path);
        PersistLoadIff(S, bin0, path, before);
      }
    } else {
      PersistLoadIff(S, bin, path, after);
    }
  }

  /**
   Overwriting a persisted file: at every disk state the path exists, and a state that cannot be read occurs exactly
   when the new packed blobs are fewer bytes than the old ones.
   */
  method OverwriteFile(S: Store, B: Backing, path: string, ghost before: seq<byte>, after: seq<byte>)
    requires Fits(before) && Fits(after) && Holds(S, B.disk.bin, path, before)
    modifies B
    ensures old(B.history) <= B.history && LoadFile(S, B.disk.bin, path) == Read(Ok(after))
    ensures forall i :: |old(B.history)| <= i < |B.history| ==>
              || LoadFile(S, B.history[i].bin, path) == Read(Ok(before))
              || LoadFile(S, B.history[i].bin, path) == Read(Ok(after))
              || OldTable(S, B.history[i].bin, path, before, Concat(Blobs(S.z, after)))
    ensures (exists i :: |old(B.history)| <= i < |B.history| && LoadFile(S, B.history[i].bin, path) == Unreadable) <==>
            |Concat(Blobs(S.z, after))| < |Concat(Blobs(S.z, before))|
  {
    hide Concat, Blobs, Encode, LoadFile, Between, OldTable, Holds, Torn, Stored;
    ghost var bin0, h, packed := B.disk.bin, |B.history|, Concat(Blobs(S.z, after));
    PersistLogicalFile(S, B, path, after);
    StoredLoads(S, bin0, B.disk.bin, path, after);
    forall i | h <= i < |B.history|
      ensures || LoadFile(S, B.history[i].bin, path) == Read(Ok(before))
              || LoadFile(S, B.history[i].bin, path) == Read(Ok(after))
              || OldTable(S, B.history[i].bin, path, before, packed)
      ensures LoadFile(S, B.history[i].bin, path) == Unreadable ==> |packed| < |Concat(Blobs(S.z, before))|
    {
      assert B.history[i] == B.history[h..][i - h];
      OverwriteState(S, bin0, B.history[i].bin, path, before, after);
      if OldTable(S, B.history[i].bin, path, before, packed) {
        TornUnreadableIff(S, B.history[i].bin, path, before, packed);
      }
    }
    ghost var k :| h <= k < |B.history| && Torn(S.idOf(path), bin0, B.history[k].bin, packed);
    TornIsOldTable(S, bin0, B.history[k].bin, path, before, packed);
    TornUnreadableIff(S, B.history[k].bin, path, before, packed);
  }

  lemma StoredLoads(S: Store, bin0: Bin, bin: Bin, path: string, data: seq<byte>)
    requires Fits(data) && Stored(S.idOf(path), bin0, bin, Concat(Blobs(S.z, data)), Encode(MetaOf(S.z, data)))
    ensures Holds(S, bin, path, data) && LoadFile(S, bin, path) == Read(Ok(data))
  {
    hide Concat, Blobs, Encode, LoadFile, Between;
    PersistLoadIff(S, bin, path, data);
  }

  lemma TornIsOldTable(S: Store, bin0: Bin, bin: Bin, path: string, before: seq<byte>, packed: seq<byte>)
    requires |before| < TWO_64 && Holds(S, bin0, path, before) && Torn(S.idOf(path), bin0, bin, packed)
    ensures OldTable(S, bin, path, before, packed)
  {
    hide Concat, Blobs, Encode;
  }

  lemma OneRowLoads(S: Store, bin: Bin, path: string, before: seq<byte>, packed: seq<byte>, n: u32)
    requires Fits(before) && |before| <= CHUNK_SIZE && 0 < n <= |packed|
    requires OldTable(S, bin, path, before, packed)
    requires MetaOf(S.z, before).chunks == [ChunkMeta(|before|, 0, n)]
    ensures LoadFile(S, bin, path) == Read(Unpack(S.z, CHUNK_SIZE, [packed[..n]], 0, |before|))
  {
    hide LoadFile, Concat, Blobs, OldTable, MetaOf, Unpack, Encode;
    OldTableLoads(S, bin, path, before, packed);
    var rows := MetaOf(S.z, before).chunks;
    assert BlobAt(packed, rows[0]) == packed[..n];
    ReadBlobsIs(packed, rows, [packed[..n]]);
  }

  /**
   What is readable between the renames need not be either content: under the codec that stores blocks as they are,
   three bytes written over two leave the first two of the new ones.
   */
  lemma OverwriteMixes(idOf: string -> string, path: string, x: byte, y: byte)
    ensures var S, id := Store(Bytes.Stored(), idOf), idOf(path);
            var bin0 := map[MetaFile(id) := Encode(MetaOf(S.z, [x, x])), DataFile(id) := Concat(Blobs(S.z, [x, x]))];
            var torn := bin0[DataFile(id) := Concat(Blobs(S.z, [y, y, y]))];
            Holds(S, bin0, path, [x, x]) && LoadFile(S, torn, path) == Read(Ok([y, y]))
  {
    hide LoadFile, Encode, Concat, Blobs, MetaOf, Fits, Holds, OldTable, Bytes.Stored;
    var S, id := Store(Bytes.Stored(), idOf), idOf(path);
    var before, after := [x, x], [y, y, y];
    StoredBlob(S.z, before);
    StoredBlob(S.z, after);
    ShortFits(before);
    MixedLoad(S, path, before, [y, y], [0 as byte] + after);
    TwoFiles(S, path, before, Concat(Blobs(S.z, before)), Concat(Blobs(S.z, after)));
  }

  lemma ShortFits(data: seq<byte>)
    requires |data| <= CHUNK_SIZE
    ensures Fits(data)
  {
    CeilDivBounds(|data|, CHUNK_SIZE);
  }

  /** The two files of a path, before and between the renames. */
  lemma TwoFiles(S: Store, path: string, before: seq<byte>, old': seq<byte>, new': seq<byte>)
    requires |before| < TWO_64 && old' == Concat(Blobs(S.z, before))
    ensures var id := S.idOf(path);
            var bin0: Bin := map[MetaFile(id) := Encode(MetaOf(S.z, before)), DataFile(id) := old'];
            Holds(S, bin0, path, before) && OldTable(S, bin0[DataFile(id) := new'], path, before, new')
  {
    hide Encode, Concat, Blobs, MetaOf;
  }

  lemma MixedLoad(S: Store, path: string, before: seq<byte>, d: seq<byte>, packed: seq<byte>)
    requires S.z == Bytes.Stored() && Fits(before)
    requires |before| == |d| == 2 && |packed| == 4 && packed[..3] == [0 as byte] + d
    requires MetaOf(S.z, before).chunks == [ChunkMeta(2, 0, 3)]
    ensures forall bin :: OldTable(S, bin, path, before, packed) ==> LoadFile(S, bin, path) == Read(Ok(d))
  {
    UnpackStored(d);
    hide LoadFile, MetaOf, Unpack, OldTable;
    forall bin | OldTable(S, bin, path, before, packed) ensures LoadFile(S, bin, path) == Read(Ok(d)) {
      OneRowLoads(S, bin, path, before, packed, 3);
    }
  }

  lemma UnpackStored(d: seq<byte>)
    requires 0 < |d| <= CHUNK_SIZE
    ensures Unpack(Bytes.Stored(), CHUNK_SIZE, [[0 as byte] + d], 0, |d|) == Ok(d)
  {
    var cs := [[0 as byte] + d];
    assert cs[0][1..] == d && cs[1..] == [];
    assert d[0..|d|] + [] == d;
  }

  lemma StoredBlob(z: Codec, data: seq<byte>)
    requires z == Bytes.Stored() && 0 < |data| <= CHUNK_SIZE
    ensures Blobs(z, data) == [[0 as byte] + data] && Concat(Blobs(z, data)) == [0 as byte] + data
    ensures |data| < TWO_64 && MetaOf(z, data).chunks == [ChunkMeta(|data|, 0, |data| + 1)]
  {
    BlobCount(z, data);
    assert Pieces(CHUNK_SIZE, data, 0) == [data] by {
      assert data[..|data|] == data && data[|data|..] == [];
    }
    var cs := Blobs(z, data);
    assert cs == [[0 as byte] + data];
    assert cs[..0] == [];
  }
}
