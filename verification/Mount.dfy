/**
 The mounted namespace as it lies on disk: the path index, one metadata text per id, and the chunk files. Operations
 load and save texts; `Loaded` is what these mean. Under a guard on names each acts on it as `Namespace` says, up to
 how a record counts the chunks of its file.
 */
module Mount {
  import opened Bytes
  import opened FileIds
  import opened ChunkedFile
  import opened ChunkedRead
  import opened Namespace
  import TextMeta
  import Stats

  datatype Mounted = Mounted(index: map<string, string>, texts: map<string, string>, blobs: map<ChunkKey, seq<byte>>)

  const EMPTY_MOUNT := Mounted(map[], map[], map[])

  const STATS_VPATH := "/.cfs_stats"

  // ---------------------------------------------------------------- records and their texts

  /** A missing metadata file, one that throws when it is parsed, and one that loads. */
  datatype Record = NoFile | Unparsable | Found(m: FileMeta)

  function RecordOf(text: string): Option<FileMeta>
  {
    TextMeta.LoadText(text, DEFAULT_META)
  }

  function LoadRecord(texts: map<string, string>, id: string): Record
  {
    if id !in texts then NoFile
    else
      match RecordOf(texts[id])
      case None => Unparsable
      case Some(m) => Found(m)
  }

  function SaveRecord(texts: map<string, string>, m: FileMeta): map<string, string>
  {
    texts[m.pathId := TextMeta.SaveText(m)]
  }

  /** The state that the operations see: every record as its text loads. */
  function Loaded(t: Mounted): Fs
  {
    Fs(t.index, map id | id in t.texts :: RecordOf(t.texts[id]).GetOr(DEFAULT_META), t.blobs)
  }

  // ---------------------------------------------------------------- the operations

  function CreateOn(L: Layout, t: Mounted, p: string, mode: nat, now: int): (Mounted, Status)
  {
    if PathToId(t.index, p) != "" then (t, EEXIST)
    else
      var m := NewRecord(L, p, mode, now);
      (t.(texts := SaveRecord(t.texts, m), index := t.index[p := m.pathId]), Done(0))
  }

  /** The chunk table of a loaded record. */
  function TableOf(t: Mounted, id: string, m: FileMeta): File
  {
    File(m.logicalSize, m.nChunks, m.compressedSize, BlobsOf(t.blobs, id))
  }

  function StoreFile(t: Mounted, id: string, m: FileMeta, f: File, now: int): Mounted
  {
    t.(texts := SaveRecord(t.texts, Updated(m, f, now)), blobs := PutBlobs(t.blobs, id, f.blobs))
  }

  function WriteOn(L: Layout, t: Mounted, p: string, buf: seq<byte>, off: nat, now: int): (Mounted, Status)
  {
    var id := PathToId(t.index, p);
    if |buf| == 0 then (t, Done(0))
    else if id == "" then (t, ENOENT)
    else
      match LoadRecord(t.texts, id)
      case NoFile => (t, ENOENT)
      case Unparsable => (t, Thrown)
      case Found(m) => (StoreFile(t, id, m, Written(L, TableOf(t, id, m), buf, off), now), Done(|buf|))
  }

  function TruncateOn(L: Layout, t: Mounted, p: string, ns: nat, now: int): (Mounted, Status)
  {
    var id := PathToId(t.index, p);
    if id == "" then (t, ENOENT)
    else
      match LoadRecord(t.texts, id)
      case NoFile => (t, ENOENT)
      case Unparsable => (t, Thrown)
      case Found(m) => (StoreFile(t, id, m, Truncated(L, TableOf(t, id, m), ns), now), Done(0))
  }

  function UnlinkOn(t: Mounted, p: string): (Mounted, Status)
  {
    var id := PathToId(t.index, p);
    if id == "" then (t, ENOENT)
    else
      match LoadRecord(t.texts, id)
      case NoFile => (Dropped(t, p, id, 0), Done(0))
      case Unparsable => (t, Thrown)
      case Found(m) => (Dropped(t, p, id, m.nChunks), Done(0))
  }

  /** Path, record and the first `n` chunk files removed. */
  function Dropped(t: Mounted, p: string, id: string, n: nat): Mounted
  {
    Mounted(Without(t.index, p), Without(t.texts, id), RemoveChunks(t.blobs, id, 0, n))
  }

  /** The index entry moves; the record found under `id`, or a default one, is saved with the new path. */
  function MoveOn(t: Mounted, from: string, to: string, id: string): (Mounted, Status)
  {
    match LoadRecord(t.texts, id)
    case NoFile => (Renamed(t, from, to, id, DEFAULT_META), Done(0))
    case Unparsable => (t, Thrown)
    case Found(m) => (Renamed(t, from, to, id, m), Done(0))
  }

  function Renamed(t: Mounted, from: string, to: string, id: string, m: FileMeta): Mounted
  {
    Mounted(Without(t.index, from)[to := id], SaveRecord(t.texts, m.(logicalPath := to)), t.blobs)
  }

  function RenameOn(t: Mounted, from: string, to: string): (Mounted, Status)
  {
    var id := PathToId(t.index, from);
    if id == "" then (t, ENOENT)
    else if PathToId(t.index, to) == "" then MoveOn(t, from, to, id)
    else
      var dropped := UnlinkOn(t, to);
      if dropped.1 == Thrown then dropped else MoveOn(dropped.0, from, to, id)
  }

  function ApplyOn(L: Layout, t: Mounted, op: Op): (Mounted, Status)
  {
    match op
    case Create(p, mode, now) => CreateOn(L, t, Norm(p), mode, now)
    case Write(p, buf, off, now) => WriteOn(L, t, Norm(p), buf, off, now)
    case Truncate(p, ns, now) => TruncateOn(L, t, Norm(p), ns, now)
    case Unlink(p) => UnlinkOn(t, Norm(p))
    case Rename(from, to) => RenameOn(t, Norm(from), Norm(to))
  }

  /** Every operation on the empty path is that on the root. */
  lemma EmptyPathIsRoot(L: Layout, t: Mounted, buf: seq<byte>, n: nat, now: int, p: string)
    ensures ApplyOn(L, t, Create("", n, now)) == ApplyOn(L, t, Create("/", n, now))
    ensures ApplyOn(L, t, Write("", buf, n, now)) == ApplyOn(L, t, Write("/", buf, n, now))
    ensures ApplyOn(L, t, Truncate("", n, now)) == ApplyOn(L, t, Truncate("/", n, now))
    ensures ApplyOn(L, t, Unlink("")) == ApplyOn(L, t, Unlink("/"))
    ensures ApplyOn(L, t, Rename("", p)) == ApplyOn(L, t, Rename("/", p))
    ensures ApplyOn(L, t, Rename(p, "")) == ApplyOn(L, t, Rename(p, "/"))
  {
    hide CreateOn, WriteOn, TruncateOn, UnlinkOn, RenameOn;
  }

  /** The bytes of `/.cfs_stats`; `ratio` is how the stream prints the quotient of the totals. */
  ghost function StatsBytes(ratio: (nat, nat) -> string, t: Mounted): Option<seq<byte>>
  {
    match Stats.StatsOf(t.index, t.texts)
    case None => None
    case Some(sums) => Some(Stats.AsBytes(Stats.StatsText(sums, ratio(sums.logical, sums.compressed))))
  }

  ghost function ReadOn(L: Layout, ratio: (nat, nat) -> string, t: Mounted, p: string, size: nat, off: nat): ReadResult
  {
    if Norm(p) == STATS_VPATH then
      match StatsBytes(ratio, t)
      case None => ReadThrown
      case Some(text) => Data(Slice(text, off, size))
    else ReadFileOn(L, t, Norm(p), size, off)
  }

  /** The read of an ordinary path. */
  function ReadFileOn(L: Layout, t: Mounted, p: string, size: nat, off: nat): ReadResult
  {
    var id := PathToId(t.index, p);
    if id == "" then NoEntry
    else
      match LoadRecord(t.texts, id)
      case NoFile => NoEntry
      case Unparsable => ReadThrown
      case Found(m) => ReadFile(L, TableOf(t, id, m), size, off)
  }

  /** The file has bytes at `off`, and the chunk file of a chunk that the request touches does not decode. */
  ghost predicate Breaks(L: Layout, t: Mounted, p: string, size: nat, off: nat)
  {
    var id := PathToId(t.index, p);
    id != "" && LoadRecord(t.texts, id).Found? &&
    var end := LoadRecord(t.texts, id).m.logicalSize;
    && off < end
    && exists i: nat :: off / L.C <= i <= (off + Min(size, end - off) - 1) / L.C &&
                        Undecodable(L, BlobsOf(t.blobs, id), i)
  }

  /** The I/O error is that of a touched chunk whose file does not decode, and of nothing else. */
  lemma ReadOnFailsIff(L: Layout, ratio: (nat, nat) -> string, t: Mounted, p: string, size: nat, off: nat)
    requires 0 < off + size
    ensures ReadOn(L, ratio, t, p, size, off) == IoError <==> Norm(p) != STATS_VPATH && Breaks(L, t, Norm(p), size, off)
  {
    hide Norm, StatsBytes, RecordOf, ReadFile, BlobsOf, Undecodable;
    var id := PathToId(t.index, Norm(p));
    if id != "" && LoadRecord(t.texts, id).Found? {
      ReadFailsIff(L, TableOf(t, id, LoadRecord(t.texts, id).m), size, off);
    }
  }

  // ---------------------------------------------------------------- which texts load back

  /** The record survives being saved and loaded: within its widths, with tokens for id and path. */
  predicate Printable(m: FileMeta)
  {
    TextMeta.Bounded(m) && TextMeta.IsToken(m.pathId) && TextMeta.IsToken(m.logicalPath)
  }

  lemma SavedLoads(m: FileMeta)
    requires Printable(m)
    ensures RecordOf(TextMeta.SaveText(m)) == Some(m)
  {
    TextMeta.RecordRoundTripIff(m, DEFAULT_META);
  }

  /** The text loads, as a record that will survive being saved again. */
  predicate ReadableText(text: string)
  {
    var r := RecordOf(text);
    r.Some? && Printable(r.value)
  }

  ghost predicate Readable(t: Mounted)
  {
    forall id :: id in t.texts ==> ReadableText(t.texts[id])
  }

  /** And it is what `save` writes for that record. */
  predicate CanonicalText(text: string)
  {
    ReadableText(text) && text == TextMeta.SaveText(RecordOf(text).value)
  }

  ghost predicate Canonical(t: Mounted)
  {
    forall id :: id in t.texts ==> CanonicalText(t.texts[id])
  }

  /** Index, records as they load, and chunk files agree. */
  ghost predicate Sound(L: Layout, t: Mounted)
  {
    Inv(L, Loaded(t)) && Readable(t)
  }

  /** `r` says of the chunk files `blobs` what `m` says: the id, the size, and a table that describes them. */
  ghost predicate Describes(L: Layout, r: FileMeta, m: FileMeta, blobs: map<nat, seq<byte>>)
  {
    && r.pathId == m.pathId && r.logicalSize == m.logicalSize
    && WellFormed(L, File(r.logicalSize, r.nChunks, r.compressedSize, blobs))
  }

  /** The words of its path let the record of these chunk files come back from its text. */
  ghost predicate NameFits(L: Layout, m: FileMeta, blobs: map<nat, seq<byte>>)
  {
    var r := TextMeta.NamedRecord(m, DEFAULT_META);
    r.Some? && Describes(L, r.value, m, blobs)
  }

  lemma TokenName(m: FileMeta)
    requires TextMeta.IsToken(m.logicalPath)
    ensures TextMeta.NamedRecord(m, DEFAULT_META) == Some(m)
  {
    TextMeta.OneToken(m.logicalPath);
    hide TextMeta.IsToken, TextMeta.Tokens;
    assert [m.logicalPath][1..] == [];
  }

  lemma TokenFits(L: Layout, m: FileMeta, blobs: map<nat, seq<byte>>)
    requires TextMeta.IsToken(m.logicalPath) && WellFormed(L, File(m.logicalSize, m.nChunks, m.compressedSize, blobs))
    ensures NameFits(L, m, blobs)
  {
    TokenName(m);
    hide TextMeta.IsToken, TextMeta.NamedRecord, WellFormed;
  }

  /**
   Where no word of the path is taken for a key, the record comes back exactly when their number is odd or the file is
   empty.
   */
  lemma KeylessFits(L: Layout, m: FileMeta, blobs: map<nat, seq<byte>>)
    requires TextMeta.Keyless(TextMeta.Tokens(m.logicalPath)) && TextMeta.Tokens(m.logicalPath) != []
    requires WellFormed(L, File(m.logicalSize, m.nChunks, m.compressedSize, blobs))
    ensures NameFits(L, m, blobs) <==> |TextMeta.Tokens(m.logicalPath)| % 2 == 1 || m.logicalSize == 0
  {
    TextMeta.KeylessLoads(m, DEFAULT_META);
    hide TextMeta.Tokens, TextMeta.IsKey, TextMeta.NamedRecord, TextMeta.Keyless;
    if m.logicalSize == 0 {
      NoChunks(L, File(0, m.nChunks, m.compressedSize, blobs));
    }
    hide WellFormed;
  }

  lemma NoChunks(L: Layout, f: File)
    requires WellFormed(L, f) && f.size == 0
    ensures WellFormed(L, File(0, 0, 0, f.blobs))
  {
    CeilDivBounds(0, L.C);
    forall i: nat ensures GoodChunk(L, File(0, 0, 0, f.blobs), i) {
      assert GoodChunk(L, f, i);
    }
  }

  lemma IdIsToken(p: string)
    ensures TextMeta.IsToken(PathId(p))
  {
    var id := PathId(p);
    forall i | 0 <= i < |id| ensures !TextMeta.IsSpace(id[i]) {
      assert id[i] in id;
      HexIsPlain(id[i]);
    }
  }

  lemma HexIsPlain(c: char)
    requires c in HEX
    ensures !TextMeta.IsSpace(c)
  {
  }

  lemma LoadedAt(t: Mounted, id: string)
    ensures id in t.texts <==> id in Loaded(t).metas
    ensures id in t.texts && RecordOf(t.texts[id]).Some? ==>
              LoadRecord(t.texts, id) == Found(Loaded(t).metas[id]) &&
              RecordOf(t.texts[id]).value == Loaded(t).metas[id]
  {
    hide RecordOf;
  }

  lemma ReadableRecord(t: Mounted, id: string)
    requires Readable(t) && id in t.texts
    ensures LoadRecord(t.texts, id) == Found(Loaded(t).metas[id]) && Printable(Loaded(t).metas[id])
    ensures RecordOf(t.texts[id]) == Some(Loaded(t).metas[id])
  {
    assert ReadableText(t.texts[id]);
    hide RecordOf, Printable;
  }

  // ---------------------------------------------------------------- what saving a record does to the loaded state

  /** Whatever its path, a record with a token for its id leaves a readable text, if that loads at all. */
  lemma SavedText(m: FileMeta)
    requires TextMeta.Bounded(m) && TextMeta.IsToken(m.pathId)
    ensures RecordOf(TextMeta.SaveText(m)) == TextMeta.NamedRecord(m, DEFAULT_META)
    ensures RecordOf(TextMeta.SaveText(m)).Some? ==> ReadableText(TextMeta.SaveText(m))
  {
    var ts := TextMeta.Tokens(TextMeta.SaveText(m));
    hide TextMeta.SaveText, TextMeta.Tokens, TextMeta.IsToken, TextMeta.NamedRecord, TextMeta.LoadTokens;
    TextMeta.SavedNameLoads(m, DEFAULT_META);
    TextMeta.LoadedIdIsToken(m, DEFAULT_META);
    TextMeta.LoadedPathIsToken(m, DEFAULT_META);
    if TextMeta.LoadTokens(ts, DEFAULT_META).Some? {
      TextMeta.LoadedBounded(ts, DEFAULT_META);
    }
  }

  /** The loaded state has the record that the saved one loads as. */
  lemma SavedName(t: Mounted, m: FileMeta)
    requires TextMeta.Bounded(m) && TextMeta.IsToken(m.pathId)
    ensures Loaded(t.(texts := SaveRecord(t.texts, m))) ==
            Loaded(t).(metas := Loaded(t).metas[m.pathId := TextMeta.NamedRecord(m, DEFAULT_META).GetOr(DEFAULT_META)])
    ensures Readable(t) && TextMeta.NamedRecord(m, DEFAULT_META).Some? ==>
              Readable(t.(texts := SaveRecord(t.texts, m)))
  {
    SavedText(m);
    hide RecordOf, ReadableText, Loaded, TextMeta.SaveText, TextMeta.NamedRecord, TextMeta.Bounded, TextMeta.IsToken;
    LoadedSaved(t, m);
  }

  lemma LoadedSaved(t: Mounted, m: FileMeta)
    ensures Loaded(t.(texts := SaveRecord(t.texts, m))) ==
            Loaded(t).(metas := Loaded(t).metas[m.pathId := RecordOf(TextMeta.SaveText(m)).GetOr(DEFAULT_META)])
  {
    hide RecordOf, TextMeta.SaveText;
  }

  /** With a token for its path, that is the record itself. */
  lemma SavedRecord(t: Mounted, m: FileMeta)
    requires Printable(m)
    ensures Loaded(t.(texts := SaveRecord(t.texts, m))) == Loaded(t).(metas := Loaded(t).metas[m.pathId := m])
    ensures Readable(t) ==> Readable(t.(texts := SaveRecord(t.texts, m)))
    ensures Canonical(t) ==> Canonical(t.(texts := SaveRecord(t.texts, m)))
  {
    SavedLoads(m);
    TokenName(m);
    hide RecordOf, TextMeta.SaveText, Loaded, Readable, TextMeta.NamedRecord, TextMeta.Bounded, TextMeta.IsToken;
    SavedName(t, m);
  }

  /** A record that describes the same files leaves the states alike. */
  lemma AlikePut(L: Layout, s: Fs, m: FileMeta, r: FileMeta)
    requires Describes(L, r, m, BlobsOf(s.blobs, m.pathId))
    ensures Alike(L, s.(metas := s.metas[m.pathId := r]), s.(metas := s.metas[m.pathId := m]))
  {
    hide WellFormed, BlobsOf;
    var u, v := s.(metas := s.metas[m.pathId := r]), s.(metas := s.metas[m.pathId := m]);
    forall id ensures AlikeAt(L, u, v, id) {
      if id != m.pathId && id in s.metas {
        assert FileOf(u, id) == FileOf(v, id);
      }
    }
  }

  lemma FitsAlike(L: Layout, s: Fs, m: FileMeta)
    requires NameFits(L, m, BlobsOf(s.blobs, m.pathId))
    ensures TextMeta.NamedRecord(m, DEFAULT_META).Some?
    ensures Alike(L, s.(metas := s.metas[m.pathId := TextMeta.NamedRecord(m, DEFAULT_META).GetOr(DEFAULT_META)]),
                  s.(metas := s.metas[m.pathId := m]))
  {
    hide TextMeta.NamedRecord, Describes, Alike, BlobsOf;
    AlikePut(L, s, m, TextMeta.NamedRecord(m, DEFAULT_META).value);
  }

  lemma AlikeItself(L: Layout, s: Fs)
    ensures Alike(L, s, s)
  {
    hide WellFormed;
  }

  // ---------------------------------------------------------------- each operation acts on the loaded state

  /** A create acts as on records, up to how the new record counts; exactly so if its path is a token. */
  lemma CreateActs(L: Layout, t: Mounted, p: string, mode: nat, now: int)
    requires Readable(t) && PathToId(t.index, p) == "" && TextMeta.Bounded(NewRecord(L, p, mode, now))
    requires NameFits(L, NewRecord(L, p, mode, now), BlobsOf(t.blobs, PathId(p)))
    ensures var u, s := CreateOn(L, t, p, mode, now), CreateFs(L, Loaded(t), p, mode, now);
            && Alike(L, Loaded(u.0), s.0) && u.1 == s.1 && Readable(u.0)
            && (TextMeta.IsToken(p) ==> Loaded(u.0) == s.0 && (Canonical(t) ==> Canonical(u.0)))
  {
    var m := NewRecord(L, p, mode, now);
    IdIsToken(p);
    assert m.pathId == PathId(p) && m.logicalPath == p;
    var t1 := t.(index := t.index[p := m.pathId]);
    var s1 := Loaded(t).(index := t.index[p := m.pathId]);
    hide NewRecord, RecordOf, CanonicalText, ReadableText, SaveRecord, PathId, BlobsOf;
    hide TextMeta.IsToken, TextMeta.NamedRecord, TextMeta.Bounded, WellFormed, Alike, NameFits;
    assert Loaded(t1) == s1;
    SavedName(t1, m);
    FitsAlike(L, s1, m);
    if TextMeta.IsToken(p) {
      SavedRecord(t1, m);
    }
  }

  lemma StoreActs(t: Mounted, id: string, f: File, now: int)
    requires Readable(t) && id in t.texts && Printable(Updated(Loaded(t).metas[id], f, now))
    ensures Loaded(StoreFile(t, id, Loaded(t).metas[id], f, now)) == PutFile(Loaded(t), id, f, now)
    ensures Readable(StoreFile(t, id, Loaded(t).metas[id], f, now))
    ensures Canonical(t) ==> Canonical(StoreFile(t, id, Loaded(t).metas[id], f, now))
  {
    hide Printable, RecordOf, CanonicalText, ReadableText, SaveRecord, PutBlobs;
    SavedRecord(t, Updated(Loaded(t).metas[id], f, now));
  }

  lemma DroppedActs(t: Mounted, p: string, id: string, n: nat)
    requires Readable(t)
    ensures Loaded(Dropped(t, p, id, n)) ==
            Fs(Without(t.index, p), Without(Loaded(t).metas, id), RemoveChunks(t.blobs, id, 0, n))
    ensures Readable(Dropped(t, p, id, n)) && (Canonical(t) ==> Canonical(Dropped(t, p, id, n)))
  {
    hide RecordOf, CanonicalText, ReadableText, RemoveChunks;
  }

  lemma UnlinkActs(t: Mounted, p: string)
    requires Readable(t)
    ensures Loaded(UnlinkOn(t, p).0) == UnlinkFs(Loaded(t), p).0 && UnlinkOn(t, p).1 == UnlinkFs(Loaded(t), p).1
    ensures Readable(UnlinkOn(t, p).0) && (Canonical(t) ==> Canonical(UnlinkOn(t, p).0))
  {
    var id := PathToId(t.index, p);
    hide Loaded, RecordOf, CanonicalText, Canonical, ReadableText, Readable, RemoveChunks, Dropped, Printable;
    LoadedAt(t, id);
    LoadedParts(t);
    if id in t.texts {
      ReadableRecord(t, id);
      DroppedActs(t, p, id, Loaded(t).metas[id].nChunks);
    } else {
      DroppedActs(t, p, id, 0);
    }
  }

  lemma LoadedParts(t: Mounted)
    ensures Loaded(t).index == t.index && Loaded(t).blobs == t.blobs && Loaded(t).metas.Keys == t.texts.Keys
  {
    hide RecordOf;
  }

  lemma DropActs(L: Layout, t: Mounted, to: string)
    requires Sound(L, t)
    ensures var u := if PathToId(t.index, to) == "" then t else UnlinkOn(t, to).0;
            && Loaded(u) == DropTarget(Loaded(t), to) && Sound(L, u) && u.index == Without(t.index, to)
            && (Canonical(t) ==> Canonical(u))
    ensures PathToId(t.index, to) != "" ==> UnlinkOn(t, to).1 == Done(0)
  {
    hide Loaded, Canonical, Readable, UnlinkFs, UnlinkOn;
    LoadedParts(t);
    DropTargetInv(L, Loaded(t), to);
    UnlinkActs(t, to);
    UnlinkStatus(Loaded(t), to);
    var u := if PathToId(t.index, to) == "" then t else UnlinkOn(t, to).0;
    LoadedParts(u);
  }

  lemma UnlinkStatus(s: Fs, p: string)
    ensures PathToId(s.index, p) != "" ==> UnlinkFs(s, p).1 == Done(0)
  {
  }

  /** The move of an indexed path acts as on records, up to how the moved record counts. */
  lemma MoveActs(L: Layout, t: Mounted, from: string, to: string, id: string)
    requires Sound(L, t) && from in t.index && t.index[from] == id && id in Loaded(t).metas
    requires NameFits(L, Loaded(t).metas[id].(logicalPath := to), BlobsOf(t.blobs, id))
    ensures var u, s := MoveOn(t, from, to, id), Moved(Loaded(t), from, to, id);
            && Alike(L, Loaded(u.0), s) && u.1 == Done(0) && Readable(u.0)
            && (TextMeta.IsToken(to) ==> Loaded(u.0) == s && (Canonical(t) ==> Canonical(u.0)))
  {
    var m := Loaded(t).metas[id].(logicalPath := to);
    var t1 := t.(index := Without(t.index, from)[to := id]);
    var s1 := Loaded(t).(index := t1.index);
    MoveIs(L, t, from, to, id);
    hide RecordOf, CanonicalText, ReadableText, SaveRecord, BlobsOf, Inv, MoveOn, Moved, Loaded, Readable, Canonical;
    hide TextMeta.IsToken, TextMeta.NamedRecord, TextMeta.Bounded, WellFormed, Alike, NameFits;
    SavedName(t1, m);
    FitsAlike(L, s1, m);
    SameTexts(t, t1);
    if TextMeta.IsToken(to) {
      SavedRecord(t1, m);
    }
  }

  /** A move saves the record it found with the new path, and replaces one index entry by another. */
  lemma MoveIs(L: Layout, t: Mounted, from: string, to: string, id: string)
    requires Sound(L, t) && from in t.index && t.index[from] == id && id in Loaded(t).metas
    ensures var m := Loaded(t).metas[id].(logicalPath := to);
            var t1 := t.(index := Without(t.index, from)[to := id]);
            && TextMeta.Bounded(m) && TextMeta.IsToken(m.pathId) && m.pathId == id
            && Loaded(t1) == Loaded(t).(index := t1.index) && Loaded(t).blobs == t.blobs
            && MoveOn(t, from, to, id) == (t1.(texts := SaveRecord(t1.texts, m)), Done(0))
            && Moved(Loaded(t), from, to, id) == Loaded(t1).(metas := Loaded(t1).metas[id := m])
  {
    assert OwnedMeta(Loaded(t), id);
    LoadedParts(t);
    ReadableRecord(t, id);
    hide RecordOf, Readable, SaveRecord, Inv, TextMeta.IsToken, WellFormed, Loaded, MoveOn, Moved;
    MovedTexts(t, from, to, id, Loaded(t).metas[id].(logicalPath := to));
    MovedFs(Loaded(t), from, to, id);
    Reindexed(t, Without(t.index, from)[to := id]);
  }

  lemma MovedFs(s: Fs, from: string, to: string, id: string)
    requires id in s.metas && s.metas[id].pathId == id
    ensures Moved(s, from, to, id) ==
            Fs(Without(s.index, from)[to := id], s.metas[id := s.metas[id].(logicalPath := to)], s.blobs)
  {
  }

  lemma Reindexed(t: Mounted, index: map<string, string>)
    ensures Loaded(t.(index := index)) == Loaded(t).(index := index)
  {
    hide RecordOf;
  }

  lemma SameTexts(t: Mounted, t1: Mounted)
    requires t.texts == t1.texts
    ensures Readable(t) <==> Readable(t1)
    ensures Canonical(t) <==> Canonical(t1)
  {
    hide ReadableText, CanonicalText;
  }

  lemma MovedTexts(t: Mounted, from: string, to: string, id: string, m: FileMeta)
    requires LoadRecord(t.texts, id).Found? && m == LoadRecord(t.texts, id).m.(logicalPath := to)
    ensures MoveOn(t, from, to, id) ==
            (t.(index := Without(t.index, from)[to := id], texts := SaveRecord(t.texts, m)), Done(0))
  {
    hide RecordOf, SaveRecord;
  }

  lemma RenameActs(L: Layout, t: Mounted, from: string, to: string)
    requires Sound(L, t) && PathToId(t.index, from) != "" && from != to && t.index[from] in Loaded(t).metas
    requires NameFits(L, Loaded(t).metas[t.index[from]].(logicalPath := to), BlobsOf(t.blobs, t.index[from]))
    ensures var u, s := RenameOn(t, from, to), RenameFs(Loaded(t), from, to);
            && Alike(L, Loaded(u.0), s.0) && u.1 == s.1 && Readable(u.0)
            && (TextMeta.IsToken(to) ==> Loaded(u.0) == s.0 && (Canonical(t) ==> Canonical(u.0)))
  {
    hide Loaded, Canonical, Readable, UnlinkOn, MoveOn, Moved, Inv, NameFits, TextMeta.IsToken, BlobsOf, Alike;
    LoadedParts(t);
    DropActs(L, t, to);
    var u := if PathToId(t.index, to) == "" then t else UnlinkOn(t, to).0;
    DropKeeps(L, Loaded(t), from, to);
    LoadedParts(u);
    hide DropTarget;
    MoveActs(L, u, from, to, t.index[from]);
  }

  /** Dropping the target leaves the record and the chunk files of the source. */
  lemma DropKeeps(L: Layout, s: Fs, from: string, to: string)
    requires Inv(L, s) && from in s.index && from != to && s.index[from] in s.metas
    ensures var u, id := DropTarget(s, to), s.index[from];
            id in u.metas && u.metas[id] == s.metas[id] && BlobsOf(u.blobs, id) == BlobsOf(s.blobs, id)
  {
    assert OnePath(s, from, to);
    DropTargetInv(L, s, to);
    hide BlobsOf, RemoveChunks, Inv;
  }
}
