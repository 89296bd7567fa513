/** Reading a byte range back from a chunk table: fetch the touched chunks, then pack them into the buffer. */
module ChunkedRead {
  import opened Bytes
  import opened ChunkedFile

  /**
   `AllocFailure` is the request for that many chunk buffers, which only a wrapped chunk count makes; `ReadThrown` is
   the exception of a record whose numbers do not parse.
   */
  datatype ReadResult = Data(bytes: seq<byte>) | NoEntry | IoError | AllocFailure(buffers: nat) | ReadThrown

  /** What one read task leaves in its slot; None is the task that sets `err`. */
  function Fetch(L: Layout, blobs: map<nat, seq<byte>>, ci: nat): Option<seq<byte>>
  {
    if DiskSize(blobs, ci) == 0 then Some(Zeros(L.C))
    else
      var d := Decoded(L, blobs[ci]);
      if d == [] then None else Some(d)
  }

  function Fetched(L: Layout, blobs: map<nat, seq<byte>>, fc: nat, nc: nat): (parts: seq<Option<seq<byte>>>)
    ensures |parts| == nc
  {
    seq(nc, i requires 0 <= i < nc => Fetch(L, blobs, fc + i))
  }

  /** The packing loop: each part is appended from its first wanted byte on, until the request is met. */
  function Assemble(parts: seq<seq<byte>>, skip: nat, want: nat): seq<byte>
  {
    if parts == [] || skip >= |parts[0]| then []
    else
      var take := Min(|parts[0]| - skip, want);
      parts[0][skip..skip + take] + Assemble(parts[1..], 0, want - take)
  }

  function Values(parts: seq<Option<seq<byte>>>): (vs: seq<seq<byte>>)
    ensures |vs| == |parts|
  {
    seq(|parts|, i requires 0 <= i < |parts| => parts[i].GetOr([]))
  }

  function Outcome(parts: seq<Option<seq<byte>>>, skip: nat, want: nat): ReadResult
  {
    if None in parts then IoError else Data(Assemble(Values(parts), skip, want))
  }

  /** `cfs_read` on an indexed file. */
  function ReadFile(L: Layout, f: File, size: nat, off: nat): ReadResult
  {
    if off >= f.size then Data([])
    else
      var want := Min(size, f.size - off);
      var fc := off / L.C;
      if off + want == 0 then
        var nc := BufferCount(L.C, 0, 0);
        if nc <= 1 then Outcome(Fetched(L, f.blobs, 0, nc), 0, 0) else AllocFailure(nc)
      else
        var nc := ChunkSpan(L.C, off, want);
        ChunkOf(off, fc, L.C);
        Outcome(Fetched(L, f.blobs, fc, nc), off - fc * L.C, want)
  }

  /** `fc`, `lc` and `nc` as the code computes them, in 64 bits: `offset + size - 1` wraps for an empty request at 0. */
  function BufferCount(C: pos, off: nat, size: nat): nat
  {
    var fc := off / C;
    var lc := ((off + size - 1) % TWO_64) / C;
    (lc - fc + 1) % TWO_64
  }

  /** `lc - fc + 1` for a request that does not wrap: 0 for an empty request at a chunk boundary. */
  function ChunkSpan(C: pos, off: nat, want: nat): nat
    requires 0 < off + want
  {
    var fc, lc := off / C, (off + want - 1) / C;
    ChunkOf(off, fc, C);
    ChunkOf(off + want - 1, lc, C);
    MulMono(lc + 1, fc, C);
    assert (lc + 1) * C == lc * C + C;
    lc + 1 - fc
  }

  /** `v` is the byte at position `q` of the parts laid out one per chunk. */
  ghost predicate PartAt(parts: seq<seq<byte>>, C: pos, q: nat, v: byte)
  {
    q / C < |parts| && q % C < |parts[q / C]| && v == parts[q / C][q % C]
  }

  lemma PartAtFirst(parts: seq<seq<byte>>, C: pos, q: nat)
    requires 0 < |parts| && q < |parts[0]| <= C
    ensures PartAt(parts, C, q, parts[0][q])
  {
    ChunkOf(q, 0, C);
  }

  lemma PartAtNext(parts: seq<seq<byte>>, C: pos, q: nat, v: byte)
    requires 0 < |parts| && PartAt(parts[1..], C, q, v)
    ensures PartAt(parts, C, C + q, v)
  {
    OneChunkOn(q, C);
    assert parts[1..][q / C] == parts[q / C + 1];
  }

  lemma OneChunkOn(q: nat, C: pos)
    ensures (C + q) / C == q / C + 1 && (C + q) % C == q % C
  {
    ChunkOf(q, q / C, C);
    assert (q / C + 1) * C == (q / C) * C + C;
    ChunkOf(C + q, q / C + 1, C);
  }

  /** Whenever all parts but the last are full, packing is positional, and stops where the last part ends. */
  lemma {:induction false} AssembleAt(parts: seq<seq<byte>>, C: pos, skip: nat, want: nat)
    requires 0 < |parts| && skip < C
    requires forall i :: 0 <= i < |parts| - 1 ==> |parts[i]| == C
    requires |parts[|parts| - 1]| <= C
    ensures |Assemble(parts, skip, want)| == Min(want, Max(0, (|parts| - 1) * C + |parts[|parts| - 1]| - skip))
    ensures forall k: nat :: k < |Assemble(parts, skip, want)| ==>
              PartAt(parts, C, skip + k, Assemble(parts, skip, want)[k])
  {
    var a := Assemble(parts, skip, want);
    if |parts| == 1 {
      assert Assemble(parts[1..], 0, want - Min(|parts[0]| - skip, want)) == [];
      forall k: nat | k < |a| ensures PartAt(parts, C, skip + k, a[k]) {
        PartAtFirst(parts, C, skip + k);
      }
    } else {
      var take := Min(C - skip, want);
      var rest := parts[1..];
      AssembleAt(rest, C, 0, want - take);
      assert (|parts| - 1) * C == (|rest| - 1) * C + C;
      MulMono(0, |rest| - 1, C);
      AssembleStep(parts, C, skip, want);
    }
  }

  lemma AssembleStep(parts: seq<seq<byte>>, C: pos, skip: nat, want: nat)
    requires 1 < |parts| && skip < C == |parts[0]|
    requires var b := Assemble(parts[1..], 0, want - Min(C - skip, want));
             forall k: nat :: k < |b| ==> PartAt(parts[1..], C, 0 + k, b[k])
    ensures forall k: nat :: k < |Assemble(parts, skip, want)| ==>
              PartAt(parts, C, skip + k, Assemble(parts, skip, want)[k])
  {
    var a, take := Assemble(parts, skip, want), Min(C - skip, want);
    var b := Assemble(parts[1..], 0, want - take);
    AssembleLength(parts[1..], 0, want - take);
    assert a == parts[0][skip..skip + take] + b;
    forall k: nat | k < |a| ensures PartAt(parts, C, skip + k, a[k]) {
      if k < take {
        PartAtFirst(parts, C, skip + k);
      } else {
        assert take == C - skip;
        assert PartAt(parts[1..], C, 0 + (k - take), b[k - take]);
        PartAtNext(parts, C, k - take, b[k - take]);
      }
    }
  }

  lemma {:induction false} AssembleLength(parts: seq<seq<byte>>, skip: nat, want: nat)
    ensures |Assemble(parts, skip, want)| <= want
  {
    if parts != [] && skip < |parts[0]| {
      AssembleLength(parts[1..], 0, want - Min(|parts[0]| - skip, want));
    }
  }

  /** The bytes a read collects for chunk `i` of a well-formed table: a hole reads as a chunk of zeros. */
  function Part(L: Layout, f: File, i: nat): seq<byte>
  {
    if i in f.blobs then Chunk(L, f, i) else Zeros(L.C)
  }

  function Parts(L: Layout, f: File, fc: nat, nc: nat): (ps: seq<seq<byte>>)
    ensures |ps| == nc
  {
    seq(nc, i requires 0 <= i < nc => Part(L, f, fc + i))
  }

  lemma FetchPart(L: Layout, f: File, i: nat)
    requires WellFormed(L, f)
    ensures Fetch(L, f.blobs, i) == Some(Part(L, f, i))
  {
    assert GoodChunk(L, f, i);
    assert i in f.blobs ==> Decoded(L, f.blobs[i]) == Chunk(L, f, i);
  }

  lemma FetchedParts(L: Layout, f: File, fc: nat, nc: nat)
    requires WellFormed(L, f)
    ensures None !in Fetched(L, f.blobs, fc, nc)
    ensures Values(Fetched(L, f.blobs, fc, nc)) == Parts(L, f, fc, nc)
  {
    var opts := Fetched(L, f.blobs, fc, nc);
    forall i | 0 <= i < nc ensures opts[i] == Some(Part(L, f, fc + i)) {
      FetchPart(L, f, fc + i);
    }
  }

  lemma PartIsByte(L: Layout, f: File, fc: nat, nc: nat, q: nat, v: byte)
    requires PartAt(Parts(L, f, fc, nc), L.C, q, v)
    ensures v == ByteAt(L, f, fc * L.C + q)
  {
    var ci := fc + q / L.C;
    assert Parts(L, f, fc, nc)[q / L.C] == Part(L, f, ci);
    ChunkOf(q, q / L.C, L.C);
    assert ci * L.C == fc * L.C + (q / L.C) * L.C;
    ChunkOf(fc * L.C + q, ci, L.C);
  }

  lemma FullButLast(L: Layout, f: File, fc: nat, nc: nat)
    requires WellFormed(L, f) && 0 < nc && forall i: nat :: fc <= i < fc + nc - 1 ==> |Part(L, f, i)| == L.C
    ensures var ps := Parts(L, f, fc, nc);
            && (forall i :: 0 <= i < nc - 1 ==> |ps[i]| == L.C) && |ps[nc - 1]| <= L.C
            && ps[nc - 1] == Part(L, f, fc + nc - 1)
  {
    assert GoodChunk(L, f, fc + nc - 1);
    assert Parts(L, f, fc, nc)[nc - 1] == Part(L, f, fc + nc - 1);
    hide Chunk, WellFormed;
  }

  lemma PartBytes(L: Layout, f: File, fc: nat, nc: nat, skip: nat, a: seq<byte>)
    requires forall k: nat :: k < |a| ==> PartAt(Parts(L, f, fc, nc), L.C, skip + k, a[k])
    ensures forall k: nat :: k < |a| ==> a[k] == ByteAt(L, f, fc * L.C + skip + k)
  {
    hide *;
    forall k: nat | k < |a| ensures a[k] == ByteAt(L, f, fc * L.C + skip + k) {
      PartIsByte(L, f, fc, nc, skip + k, a[k]);
    }
  }

  lemma PartsAssemble(L: Layout, f: File, fc: nat, nc: nat, skip: nat, want: nat)
    requires WellFormed(L, f) && 0 < nc && skip < L.C
    requires forall i: nat :: fc <= i < fc + nc - 1 ==> |Part(L, f, i)| == L.C
    ensures var a := Assemble(Parts(L, f, fc, nc), skip, want);
            && |a| == Min(want, Max(0, (nc - 1) * L.C + |Part(L, f, fc + nc - 1)| - skip))
            && forall k: nat :: k < |a| ==> a[k] == ByteAt(L, f, fc * L.C + skip + k)
  {
    var ps := Parts(L, f, fc, nc);
    FullButLast(L, f, fc, nc);
    hide *;
    assert |ps| - 1 == nc - 1;
    AssembleAt(ps, L.C, skip, want);
    PartBytes(L, f, fc, nc, skip, Assemble(ps, skip, want));
  }

  /** A read that does not wrap, in terms of its first chunk, its number of chunks and its clamped length. */
  lemma ReadFileIs(L: Layout, f: File, size: nat, off: nat, want: nat, fc: nat, nc: nat)
    requires WellFormed(L, f) && off < f.size && want == Min(size, f.size - off) && 0 < off + want
    requires fc == off / L.C && nc == ChunkSpan(L.C, off, want)
    ensures fc * L.C <= off < fc * L.C + L.C
    ensures ReadFile(L, f, size, off) == Data(Assemble(Parts(L, f, fc, nc), off - fc * L.C, want))
  {
    ChunkOf(off, fc, L.C);
    FetchedParts(L, f, fc, nc);
  }

  /**
   A read whose touched chunks, except the last, are full or absent, returns a prefix of the flat file's slice;
   it is cut short only where the last touched chunk is stored short.
   */
  lemma ReadIsPrefix(L: Layout, f: File, size: nat, off: nat, want: nat, fc: nat, lc: nat)
    requires WellFormed(L, f) && 0 < size && off < f.size
    requires want == Min(size, f.size - off) && fc == off / L.C && lc == (off + want - 1) / L.C
    requires forall i: nat :: fc <= i < lc ==> |Part(L, f, i)| == L.C
    ensures ReadFile(L, f, size, off).Data?
    ensures |ReadFile(L, f, size, off).bytes| == Min(want, Max(0, lc * L.C + |Part(L, f, lc)| - off))
    ensures ReadFile(L, f, size, off).bytes <= Slice(Flat(L, f), off, size)
  {
    DivMono(off, off + want - 1, L.C);
    ReadFileIs(L, f, size, off, want, fc, lc + 1 - fc);
    PrefixOfSlice(L, f, off, want, fc, lc);
  }

  lemma PrefixOfSlice(L: Layout, f: File, off: nat, want: nat, fc: nat, lc: nat)
    requires WellFormed(L, f) && off + want <= f.size && fc <= lc && fc * L.C <= off < fc * L.C + L.C
    requires forall i: nat :: fc <= i < lc ==> |Part(L, f, i)| == L.C
    ensures var a := Assemble(Parts(L, f, fc, lc + 1 - fc), off - fc * L.C, want);
            && |a| == Min(want, Max(0, lc * L.C + |Part(L, f, lc)| - off))
            && a <= Flat(L, f)[off..off + want]
  {
    var nc, skip := lc + 1 - fc, off - fc * L.C;
    hide WellFormed, Part, Parts, Assemble, ByteAt;
    PartsAssemble(L, f, fc, nc, skip, want);
    MulSub(lc, fc, L.C);
    assert nc - 1 == lc - fc && fc + nc - 1 == lc;
    SamePositions(L, f, Assemble(Parts(L, f, fc, nc), skip, want), off, want);
  }

  /** Bytes that are those of the file from `off` on are a prefix of the slice. */
  lemma SamePositions(L: Layout, f: File, a: seq<byte>, off: nat, want: nat)
    requires off + want <= f.size && |a| <= want && forall k: nat :: k < |a| ==> a[k] == ByteAt(L, f, off + k)
    ensures a <= Flat(L, f)[off..off + want]
  {
    hide ByteAt;
  }

  // ---------------------------------------------------------------- reads of any disk

  /** The chunk file is there, and decompresses not at all, to nothing, or to more than two chunks. */
  ghost predicate Undecodable(L: Layout, blobs: map<nat, seq<byte>>, i: nat)
  {
    && i in blobs && blobs[i] != []
    && match L.z.decompress(blobs[i]) case None => true case Some(d) => d == [] || 2 * L.C < |d|
  }

  lemma FetchFailsIff(L: Layout, blobs: map<nat, seq<byte>>, i: nat)
    ensures Fetch(L, blobs, i) == None <==> Undecodable(L, blobs, i)
  {
  }

  lemma FetchedFailsIff(L: Layout, blobs: map<nat, seq<byte>>, fc: nat, nc: nat)
    ensures None in Fetched(L, blobs, fc, nc) <==> exists i: nat :: fc <= i < fc + nc && Undecodable(L, blobs, i)
  {
    var parts := Fetched(L, blobs, fc, nc);
    hide Fetch, Undecodable;
    if None in parts {
      var i :| 0 <= i < nc && parts[i] == None;
      FetchFailsIff(L, blobs, fc + i);
    }
    if i: nat :| fc <= i < fc + nc && Undecodable(L, blobs, i) {
      FetchFailsIff(L, blobs, i);
      assert parts[i - fc] == Fetch(L, blobs, fc + (i - fc));
    }
  }

  /** A read whose chunk count does not wrap, with its chunks told apart from what is made of them. */
  lemma ReadFetches(L: Layout, f: File, size: nat, off: nat, want: nat, nc: nat)
    requires off < f.size && 0 < off + size && want == Min(size, f.size - off)
    requires nc == (off + want - 1) / L.C - off / L.C + 1
    ensures ReadFile(L, f, size, off) == Outcome(Fetched(L, f.blobs, off / L.C, nc), off % L.C, want)
  {
    ChunkOf(off, off / L.C, L.C);
    hide Fetched, Outcome;
  }

  /**
   For any chunk files at all, a read fails exactly when one of the chunks it touches has a chunk file that is not empty
   and does not decompress, or to nothing, or to more than two chunks.
   */
  lemma ReadFailsIff(L: Layout, f: File, size: nat, off: nat)
    requires 0 < off + size
    ensures ReadFile(L, f, size, off) == IoError <==>
            && off < f.size
            && exists i: nat :: off / L.C <= i <= (off + Min(size, f.size - off) - 1) / L.C &&
                                Undecodable(L, f.blobs, i)
  {
    hide ReadFile, Undecodable;
    if off < f.size {
      FailsInside(L, f, size, off, Min(size, f.size - off), off / L.C, (off + Min(size, f.size - off) - 1) / L.C);
    } else {
      PastEnd(L, f, size, off);
    }
  }

  lemma PastEnd(L: Layout, f: File, size: nat, off: nat)
    requires off >= f.size
    ensures ReadFile(L, f, size, off) == Data([])
  {
  }

  lemma FailsInside(L: Layout, f: File, size: nat, off: nat, want: nat, fc: nat, lc: int)
    requires off < f.size && 0 < off + size && want == Min(size, f.size - off)
    requires fc == off / L.C && lc == (off + want - 1) / L.C
    ensures ReadFile(L, f, size, off) == IoError <==> exists i: nat :: fc <= i <= lc && Undecodable(L, f.blobs, i)
  {
    var nc := ChunkSpan(L.C, off, want);
    SpanIs(L.C, off, want);
    ReadFetches(L, f, size, off, want, nc);
    FetchedFailsIff(L, f.blobs, fc, nc);
    OutcomeFails(Fetched(L, f.blobs, fc, nc), off % L.C, want);
    hide *;
  }

  lemma OutcomeFails(parts: seq<Option<seq<byte>>>, skip: nat, want: nat)
    ensures Outcome(parts, skip, want) == IoError <==> None in parts
  {
    hide Assemble, Values;
  }

  lemma SpanIs(C: pos, off: nat, want: nat)
    requires 0 < off + want
    ensures ChunkSpan(C, off, want) == (off + want - 1) / C - off / C + 1
  {
  }

  function Joined(parts: seq<seq<byte>>): seq<byte>
  {
    if parts == [] then [] else parts[0] + Joined(parts[1..])
  }

  /** Packing nonempty parts is taking a range of them joined, unless it starts behind the first part. */
  lemma {:induction false} AssembleIsRange(parts: seq<seq<byte>>, skip: nat, want: nat)
    requires parts != [] && skip < |parts[0]| && forall i :: 0 <= i < |parts| ==> parts[i] != []
    ensures Assemble(parts, skip, want) == Slice(Joined(parts), skip, want)
  {
    var tail, take := parts[1..], Min(|parts[0]| - skip, want);
    hide Slice, Assemble, Joined;
    if tail != [] {
      AssembleIsRange(tail, 0, want - take);
    } else {
      NoRange(want - take);
    }
    FirstPart(parts, skip, want);
    RangeSplits(parts[0], Joined(tail), skip, want);
  }

  lemma FirstPart(parts: seq<seq<byte>>, skip: nat, want: nat)
    requires parts != [] && skip < |parts[0]|
    ensures Joined(parts) == parts[0] + Joined(parts[1..])
    ensures var take := Min(|parts[0]| - skip, want);
            Assemble(parts, skip, want) == parts[0][skip..skip + take] + Assemble(parts[1..], 0, want - take)
  {
  }

  lemma NoRange(want: nat)
    ensures Slice([], 0, want) == [] && Assemble([], 0, want) == [] == Joined([])
  {
  }

  /** A range that begins in the first of two parts. */
  lemma RangeSplits(first: seq<byte>, rest: seq<byte>, skip: nat, want: nat)
    requires skip < |first|
    ensures var take := Min(|first| - skip, want);
            first[skip..skip + take] + Slice(rest, 0, want - take) == Slice(first + rest, skip, want)
  {
    var take := Min(|first| - skip, want);
    if take < want {
      assert (first + rest)[skip..Min(skip + want, |first + rest|)] == first[skip..] + rest[..Min(want - take, |rest|)];
    }
  }

  /** What a task leaves: zeros for a chunk file that is missing or empty, else what it decompresses to. */
  ghost predicate Collected(L: Layout, blobs: map<nat, seq<byte>>, i: nat, c: seq<byte>)
  {
    if i in blobs && blobs[i] != [] then L.z.decompress(blobs[i]) == Some(c) && 0 < |c| <= 2 * L.C
    else c == seq(L.C, _ => 0)
  }

  lemma CollectedIs(L: Layout, blobs: map<nat, seq<byte>>, i: nat, c: seq<byte>)
    ensures Collected(L, blobs, i, c) <==> Fetch(L, blobs, i) == Some(c)
    ensures Collected(L, blobs, i, c) ==> c != []
  {
    assert seq(L.C, _ => 0 as byte) == Zeros(L.C);
    assert |Zeros(L.C)| == L.C;
  }

  /** And otherwise, for any chunk files at all, it returns the wanted range of its chunks, joined as they are. */
  lemma ReadGives(L: Layout, f: File, size: nat, off: nat, parts: seq<seq<byte>>)
    requires off < f.size && 0 < size
    requires |parts| == (off + Min(size, f.size - off) - 1) / L.C - off / L.C + 1
    requires forall i: nat :: i < |parts| ==> Collected(L, f.blobs, off / L.C + i, parts[i])
    ensures ReadFile(L, f, size, off) ==
            Data(if off % L.C >= |parts[0]| then [] else Slice(Joined(parts), off % L.C, Min(size, f.size - off)))
  {
    hide *;
    Wanted(size, f.size, off);
    GivesAt(L, f, size, off, Min(size, f.size - off), off / L.C, parts);
  }

  lemma Wanted(size: nat, end: nat, off: nat)
    requires off < end && 0 < size
    ensures 0 < Min(size, end - off)
  {
  }

  lemma GivesAt(L: Layout, f: File, size: nat, off: nat, want: nat, fc: nat, parts: seq<seq<byte>>)
    requires off < f.size && 0 < want == Min(size, f.size - off) && fc == off / L.C
    requires |parts| == (off + want - 1) / L.C - fc + 1
    requires forall i: nat :: i < |parts| ==> Collected(L, f.blobs, fc + i, parts[i])
    ensures ReadFile(L, f, size, off) ==
            Data(if off % L.C >= |parts[0]| then [] else Slice(Joined(parts), off % L.C, want))
  {
    DivMono(off, off + want - 1, L.C);
    ReadFetches(L, f, size, off, want, |parts|);
    hide *;
    CollectedGives(L, f.blobs, fc, parts, off % L.C, want);
  }

  lemma CollectedGives(L: Layout, blobs: map<nat, seq<byte>>, fc: nat, parts: seq<seq<byte>>, skip: nat, want: nat)
    requires parts != [] && forall i: nat :: i < |parts| ==> Collected(L, blobs, fc + i, parts[i])
    ensures Outcome(Fetched(L, blobs, fc, |parts|), skip, want) ==
            Data(if skip >= |parts[0]| then [] else Slice(Joined(parts), skip, want))
  {
    hide *;
    PartsCollected(L, blobs, fc, parts);
    OutcomeGives(Fetched(L, blobs, fc, |parts|), parts, skip, want);
  }

  lemma OutcomeGives(opts: seq<Option<seq<byte>>>, parts: seq<seq<byte>>, skip: nat, want: nat)
    requires None !in opts && Values(opts) == parts && parts != [] && forall i :: 0 <= i < |parts| ==> parts[i] != []
    ensures Outcome(opts, skip, want) ==
            Data(if skip >= |parts[0]| then [] else Slice(Joined(parts), skip, want))
  {
    hide Values, Joined;
    if skip < |parts[0]| {
      AssembleIsRange(parts, skip, want);
    }
  }

  lemma PartsCollected(L: Layout, blobs: map<nat, seq<byte>>, fc: nat, parts: seq<seq<byte>>)
    requires forall i: nat :: i < |parts| ==> Collected(L, blobs, fc + i, parts[i])
    ensures None !in Fetched(L, blobs, fc, |parts|) && Values(Fetched(L, blobs, fc, |parts|)) == parts
    ensures forall i :: 0 <= i < |parts| ==> parts[i] != []
  {
    var opts := Fetched(L, blobs, fc, |parts|);
    hide Fetch, Collected;
    forall i: nat | i < |parts| ensures opts[i] == Some(parts[i]) && parts[i] != [] {
      CollectedIs(L, blobs, fc + i, parts[i]);
    }
  }

  /** No stored chunk ends before both its own end and the end of the file. */
  ghost predicate NoShortChunk(L: Layout, f: File)
  {
    forall i: nat :: i in f.blobs ==> Covered(L, f, i)
  }

  lemma CoveredParts(L: Layout, f: File, end: nat, lc: nat)
    requires WellFormed(L, f) && NoShortChunk(L, f) && 0 < end <= f.size && lc == (end - 1) / L.C
    ensures forall i: nat :: i < lc ==> |Part(L, f, i)| == L.C
    ensures lc * L.C + |Part(L, f, lc)| >= end
  {
    ChunkOf(end - 1, lc, L.C);
    forall i: nat | i < lc ensures |Part(L, f, i)| == L.C {
      assert GoodChunk(L, f, i) && (i in f.blobs ==> Covered(L, f, i));
      MulMono(i, lc, L.C);
    }
    assert lc in f.blobs ==> Covered(L, f, lc);
  }

  lemma CoveredRead(L: Layout, f: File, size: nat, off: nat)
    requires WellFormed(L, f) && NoShortChunk(L, f) && 0 < size && off < f.size
    ensures ReadFile(L, f, size, off) == Data(Slice(Flat(L, f), off, size))
  {
    var want := Min(size, f.size - off);
    hide ReadFile, Flat, WellFormed, NoShortChunk;
    CoveredRange(L, f, size, off, want, off / L.C, (off + want - 1) / L.C);
  }

  lemma CoveredRange(L: Layout, f: File, size: nat, off: nat, want: nat, fc: nat, lc: nat)
    requires WellFormed(L, f) && NoShortChunk(L, f) && 0 < size && off < f.size && want == Min(size, f.size - off)
    requires fc == off / L.C && lc == (off + want - 1) / L.C
    ensures ReadFile(L, f, size, off) == Data(Slice(Flat(L, f), off, size))
  {
    hide ReadFile, Flat, WellFormed, NoShortChunk, Part, Slice;
    CoveredParts(L, f, off + want, lc);
    ReadIsPrefix(L, f, size, off, want, fc, lc);
    SliceSize(Flat(L, f), off, size);
  }

  lemma SliceSize(s: seq<byte>, off: nat, size: nat)
    requires off < |s|
    ensures |Slice(s, off, size)| == Min(size, |s| - off)
  {
  }

  /**
   Every nonempty read is exact precisely when no stored chunk is short: the packing loop closes up the gap
   behind a short chunk instead of zero-filling it.
   */
  lemma AllReadsExact(L: Layout, f: File)
    requires WellFormed(L, f)
    ensures (forall size: nat, off: nat :: 0 < size ==> ReadFile(L, f, size, off) == Data(Slice(Flat(L, f), off, size)))
            <==> NoShortChunk(L, f)
  {
    if NoShortChunk(L, f) {
      forall size: nat, off: nat | 0 < size
        ensures ReadFile(L, f, size, off) == Data(Slice(Flat(L, f), off, size))
      {
        if off < f.size {
          CoveredRead(L, f, size, off);
        }
      }
    } else {
      var i: nat :| i in f.blobs && !Covered(L, f, i);
      ShortChunkRead(L, f, i);
    }
  }

  /** Reading exactly a short chunk comes back short. */
  lemma ShortChunkRead(L: Layout, f: File, i: nat)
    requires WellFormed(L, f) && i in f.blobs && !Covered(L, f, i)
    ensures i * L.C < f.size
    ensures ReadFile(L, f, Min(L.C, f.size - i * L.C), i * L.C) !=
            Data(Slice(Flat(L, f), i * L.C, Min(L.C, f.size - i * L.C)))
  {
    assert GoodChunk(L, f, i);
    CeilDivIs(f.size, i, L.C);
    var off, want := i * L.C, Min(L.C, f.size - i * L.C);
    ChunkOf(off, i, L.C);
    ChunkOf(off + want - 1, i, L.C);
    ReadIsPrefix(L, f, want, off, want, i, i);
  }

  /** Chunk `i` is not stored, or reaches its own end or the end of a file of this size. */
  ghost predicate Reaches(L: Layout, f: File, i: nat, size: nat)
  {
    i in f.blobs ==> |Chunk(L, f, i)| >= Min(L.C, size - i * L.C)
  }

  /** The chunk of the last of `size` bytes. */
  function LastChunk(C: pos, size: nat): nat
  {
    if size == 0 then 0 else (size - 1) / C
  }

  /** The last chunk of the file, the only one that a growth can leave short, reaches as far. */
  ghost predicate TailReaches(L: Layout, f: File, size: nat)
  {
    f.size == 0 || Reaches(L, f, LastChunk(L.C, f.size), size)
  }

  /** A write ending at `end` fills its own last chunk, unless that was stored before, to the chunk's or file's end. */
  predicate EndFilled(L: Layout, f: File, end: nat)
  {
    LastChunk(L.C, end) in f.blobs || end == LastChunk(L.C, end) * L.C + L.C || f.size <= end
  }

  /** A write either touches the old last chunk, or does not extend the file past what that chunk stores. */
  ghost predicate TailKept(L: Layout, f: File, off: nat, len: nat)
  {
    f.size == 0 || Touched(L.C, off, len, LastChunk(L.C, f.size)) || TailReaches(L, f, Max(f.size, off + len))
  }

  lemma TailIndex(C: pos, size: nat, i: nat)
    requires i * C < size
    ensures i <= (size - 1) / C
    ensures i != (size - 1) / C ==> i * C + C <= size
  {
    var l := (size - 1) / C;
    ChunkOf(size - 1, l, C);
    MulMono(l, i, C);
    MulMono(i, l, C);
  }

  lemma OnlyTheTail(L: Layout, f: File, i: nat, size: nat)
    requires WellFormed(L, f) && NoShortChunk(L, f) && f.size <= size && i in f.blobs
    ensures i * L.C < f.size
    ensures i != LastChunk(L.C, f.size) ==> |Chunk(L, f, i)| == L.C
    ensures TailReaches(L, f, size) ==> Reaches(L, f, i, size)
  {
    assert GoodChunk(L, f, i) && Covered(L, f, i);
    CeilDivIs(f.size, i, L.C);
    hide CeilDiv, Chunk, Decoded;
    TailIndex(L.C, f.size, i);
  }

  /** A shrink leaves no chunk short; a growth leaves none exactly when the last chunk reaches the new end. */
  lemma TruncateLeavesNoShort(L: Layout, f: File, ns: nat)
    requires WellFormed(L, f) && NoShortChunk(L, f)
    ensures NoShortChunk(L, Truncated(L, f, ns)) <==> ns <= f.size || TailReaches(L, f, ns)
  {
    var g := Truncated(L, f, ns);
    if ns <= f.size {
      forall i: nat | i in g.blobs ensures Covered(L, g, i) {
        assert Covered(L, f, i);
      }
    } else {
      hide Decoded, CeilDiv, WellFormed;
      assert forall i: nat :: i in f.blobs ==> (Covered(L, g, i) <==> Reaches(L, f, i, ns));
      forall i: nat | i in g.blobs && TailReaches(L, f, ns) ensures Covered(L, g, i) {
        OnlyTheTail(L, f, i, ns);
      }
    }
  }

  /** A write leaves no chunk short exactly when it fills its own last chunk and keeps up the old one. */
  lemma WriteLeavesNoShort(L: Layout, f: File, buf: seq<byte>, off: nat)
    requires 0 < |buf| && WellFormed(L, f) && NoShortChunk(L, f)
    ensures NoShortChunk(L, Written(L, f, buf, off)) <==>
            EndFilled(L, f, off + |buf|) && TailKept(L, f, off, |buf|)
  {
    hide Covered, WellFormed, Written, Reaches, Touched, EndFilled, TailReaches, LastChunk;
    var g, lc, l := Written(L, f, buf, off), LastChunk(L.C, off + |buf|), LastChunk(L.C, f.size);
    LastTouched(L, f, buf, off);
    if NoShortChunk(L, g) {
      LastChunkNeeds(L, f, buf, off);
      if 0 < f.size && !Touched(L.C, off, |buf|, l) {
        OldTailNeeds(L, f, buf, off, l);
        TailIs(L, f, Max(f.size, off + |buf|));
      }
    } else {
      var i: nat :| i in g.blobs && !Covered(L, g, i);
      WrittenShort(L, f, buf, off, i);
    }
  }

  lemma TailIs(L: Layout, f: File, size: nat)
    ensures TailReaches(L, f, size) <==> f.size == 0 || Reaches(L, f, LastChunk(L.C, f.size), size)
  {
    hide Reaches, LastChunk;
  }

  lemma LastChunkNeeds(L: Layout, f: File, buf: seq<byte>, off: nat)
    requires 0 < |buf| && NoShortChunk(L, Written(L, f, buf, off))
    ensures Covered(L, Written(L, f, buf, off), LastChunk(L.C, off + |buf|))
  {
    var lc := LastChunk(L.C, off + |buf|);
    DivMono(off, off + |buf| - 1, L.C);
    WrittenChunk(L, f, buf, off, lc);
    hide Covered, Written;
  }

  lemma OldTailNeeds(L: Layout, f: File, buf: seq<byte>, off: nat, l: nat)
    requires 0 < |buf| && !Touched(L.C, off, |buf|, l) && NoShortChunk(L, Written(L, f, buf, off))
    ensures Reaches(L, f, l, Max(f.size, off + |buf|))
  {
    hide Covered, Written, Touched;
    UntouchedTail(L, f, buf, off, l);
  }

  /** A chunk that a write leaves short is the last it touches, or the old last chunk. */
  lemma WrittenShort(L: Layout, f: File, buf: seq<byte>, off: nat, i: nat)
    requires 0 < |buf| && WellFormed(L, f) && NoShortChunk(L, f)
    requires i in Written(L, f, buf, off).blobs && !Covered(L, Written(L, f, buf, off), i)
    ensures i == LastChunk(L.C, off + |buf|) || !TailKept(L, f, off, |buf|)
  {
    hide Covered, Written, WellFormed, Chunk, LastChunk, Reaches, TailReaches;
    if Touched(L.C, off, |buf|, i) {
      if i != LastChunk(L.C, off + |buf|) {
        TouchedFills(L, f, buf, off, i);
      }
    } else {
      UntouchedTail(L, f, buf, off, i);
      OnlyTheTail(L, f, i, Max(f.size, off + |buf|));
      CoveredWhenFull(L, f, i, Max(f.size, off + |buf|));
    }
  }

  lemma CoveredWhenFull(L: Layout, f: File, i: nat, size: nat)
    ensures |Chunk(L, f, i)| == L.C ==> Reaches(L, f, i, size)
  {
  }

  lemma WrittenSize(L: Layout, f: File, buf: seq<byte>, off: nat)
    requires 0 < |buf|
    ensures Written(L, f, buf, off).size == Max(f.size, off + |buf|)
  {
    hide PatchedBlobs;
  }

  lemma LastTouched(L: Layout, f: File, buf: seq<byte>, off: nat)
    requires 0 < |buf| && WellFormed(L, f) && NoShortChunk(L, f)
    ensures Covered(L, Written(L, f, buf, off), LastChunk(L.C, off + |buf|)) <==> EndFilled(L, f, off + |buf|)
  {
    var end, lc := off + |buf|, (off + |buf| - 1) / L.C;
    ChunkOf(end - 1, lc, L.C);
    DivMono(off, end - 1, L.C);
    WrittenChunk(L, f, buf, off, lc);
    WrittenSize(L, f, buf, off);
    assert GoodChunk(L, f, lc) && (lc in f.blobs ==> Covered(L, f, lc));
    hide Written, PatchedBlobs, Decoded, CeilDiv, DiskSum;
  }

  lemma PatchedFull(L: Layout, f: File, buf: seq<byte>, off: nat, i: nat, lc: nat)
    requires Touched(L.C, off, |buf|, i) && i < lc && lc == (off + |buf| - 1) / L.C
    ensures |Patched(L, f, buf, off, i)| == L.C
  {
    ChunkOf(off + |buf| - 1, lc, L.C);
    MulMono(i, lc, L.C);
    hide Chunk;
  }

  lemma TouchedFills(L: Layout, f: File, buf: seq<byte>, off: nat, i: nat)
    requires 0 < |buf| && Touched(L.C, off, |buf|, i) && i != LastChunk(L.C, off + |buf|)
    ensures Covered(L, Written(L, f, buf, off), i)
  {
    WrittenChunk(L, f, buf, off, i);
    PatchedFull(L, f, buf, off, i, LastChunk(L.C, off + |buf|));
    hide Written, Chunk, Patched;
  }

  lemma UntouchedTail(L: Layout, f: File, buf: seq<byte>, off: nat, i: nat)
    requires 0 < |buf| && !Touched(L.C, off, |buf|, i)
    ensures i in Written(L, f, buf, off).blobs <==> i in f.blobs
    ensures i in f.blobs ==> (Covered(L, Written(L, f, buf, off), i) <==> Reaches(L, f, i, Max(f.size, off + |buf|)))
  {
    WrittenChunk(L, f, buf, off, i);
    WrittenSize(L, f, buf, off);
    hide Written, PatchedBlobs;
  }

  lemma DenseReadsExact(L: Layout, f: File, size: nat, off: nat)
    requires WellFormed(L, f) && Dense(L, f) && 0 < size
    ensures ReadFile(L, f, size, off) == Data(Slice(Flat(L, f), off, size))
  {
    forall i: nat | i in f.blobs ensures Covered(L, f, i) {
      assert GoodChunk(L, f, i);
    }
    if off < f.size {
      CoveredRead(L, f, size, off);
    }
  }

  /**
   The 64-bit chunk count of a request inside a file is the true one, but for the empty request at offset 0: there it
   is 2^64 / C when C divides 2^64, and more than one for every chunk size from 2 up to 2^64.
   */
  lemma BufferCountIs(C: pos, off: nat, size: nat)
    requires off + size < TWO_64
    ensures 0 < off + size ==> BufferCount(C, off, size) == ChunkSpan(C, off, size)
    ensures off + size == 0 ==> (1 < BufferCount(C, off, size) <==> 1 < C < TWO_64)
    ensures off + size == 0 && 1 < C && TWO_64 % C == 0 ==> BufferCount(C, off, size) == TWO_64 / C
  {
    if 0 < off + size {
      CountInside(C, off, size);
    } else {
      ChunkOf(0, 0, C);
      WrappedCount(C, TWO_64 - 1);
    }
  }

  lemma SmallMod(x: int)
    ensures 0 <= x < TWO_64 ==> x % TWO_64 == x
  {
  }

  lemma CountInside(C: pos, off: nat, size: nat)
    requires 0 < off + size < TWO_64
    ensures BufferCount(C, off, size) == ChunkSpan(C, off, size)
  {
    SpanFits(C, off, size);
    SmallMod(off + size - 1);
    SmallMod((off + size - 1) / C - off / C + 1);
  }

  lemma SpanFits(C: pos, off: nat, size: nat)
    requires 0 < off + size < TWO_64
    ensures ChunkSpan(C, off, size) < TWO_64
  {
    var last := off + size - 1;
    ChunkOf(last, last / C, C);
    assert last / C <= last;
  }

  lemma WrappedCount(C: pos, last: nat)
    requires last == TWO_64 - 1
    ensures 1 < (last / C + 1) % TWO_64 <==> 1 < C < TWO_64
    ensures 1 < C && TWO_64 % C == 0 ==> (last / C + 1) % TWO_64 == TWO_64 / C
  {
    var q := last / C;
    ChunkOf(last, q, C);
    QuotientSizes(C, q, last);
    SmallMod(q + 1);
    if 1 < C && TWO_64 % C == 0 {
      ExactCount(C, q);
    }
  }

  lemma QuotientSizes(C: pos, q: nat, last: nat)
    requires q * C <= last < q * C + C
    ensures 1 <= q <==> C <= last
    ensures 1 < C ==> q * 2 <= last
    ensures C == 1 ==> q == last
  {
    MulMono(1, q, C);
    MulMono(q, 0, C);
    if 1 < C {
      MulMono(2, C, q + 1);
      assert q * C >= q * 2;
    }
  }

  lemma ExactCount(C: pos, q: nat)
    requires TWO_64 % C == 0 && q * C <= TWO_64 - 1 < q * C + C
    ensures TWO_64 / C == q + 1
  {
    var k := TWO_64 / C;
    assert k * C == TWO_64;
    MulMono(k, q, C);
    MulMono(q + 1, k, C);
    MulMono(k, q + 1, C);
    assert (q + 1) * C == q * C + C;
  }

  /** Only the empty read at the start of a nonempty file asks for a wrapped number of buffers, and it always does. */
  lemma ReadWraps(L: Layout, f: File, size: nat, off: nat)
    requires WellFormed(L, f)
    ensures ReadFile(L, f, size, off).AllocFailure? <==> size == 0 && off == 0 && 0 < f.size && 1 < L.C < TWO_64
    ensures ReadFile(L, f, size, off).AllocFailure? && TWO_64 % L.C == 0 ==>
              ReadFile(L, f, size, off) == AllocFailure(TWO_64 / L.C)
  {
    BufferCountIs(L.C, 0, 0);
    hide BufferCount, ChunkSpan, WellFormed;
  }

  lemma EmptyRead(L: Layout, f: File, off: nat)
    requires WellFormed(L, f) && 0 < off
    ensures ReadFile(L, f, 0, off) == Data([])
  {
    hide *;
    if off < f.size {
      EmptyInside(L, f, off, off / L.C, ChunkSpan(L.C, off, 0));
    } else {
      PastEnd(L, f, 0, off);
    }
  }

  lemma EmptyInside(L: Layout, f: File, off: nat, fc: nat, nc: nat)
    requires WellFormed(L, f) && 0 < off < f.size && fc == off / L.C && nc == ChunkSpan(L.C, off, 0)
    ensures ReadFile(L, f, 0, off) == Data([])
  {
    assert Min(0, f.size - off) == 0;
    hide *;
    ReadFileIs(L, f, 0, off, 0, fc, nc);
    AssembleLength(Parts(L, f, fc, nc), off - fc * L.C, 0);
  }

  /**
   Two one-byte writes, at 0 and at `C`, leave chunk 0 short; a read across both returns two bytes although the
   file is `C + 1` bytes long and its second byte is a gap.
   */
  lemma ShortInteriorChunk(L: Layout, x: byte, y: byte)
    requires 1 < L.C
    ensures var f := Written(L, Written(L, EMPTY, [x], 0), [y], L.C);
            && WellFormed(L, f) && f.size == L.C + 1 && !NoShortChunk(L, f)
            && ReadFile(L, f, L.C + 1, 0) == Data([x, y])
  {
    var f1 := Written(L, EMPTY, [x], 0);
    var f := Written(L, f1, [y], L.C);
    CeilDivBounds(0, L.C);
    assert WellFormed(L, EMPTY);
    WrittenWellFormed(L, EMPTY, [x], 0);
    WrittenWellFormed(L, f1, [y], L.C);
    ChunkOf(0, 0, L.C);
    ChunkOf(L.C, 1, L.C);
    WrittenChunk(L, EMPTY, [x], 0, 0);
    WrittenChunk(L, f1, [y], L.C, 0);
    WrittenChunk(L, f1, [y], L.C, 1);
    assert GoodChunk(L, f1, 1);
    assert Part(L, f, 0) == [x] && Part(L, f, 1) == [y];
    assert !Covered(L, f, 0);
    ShortPairRead(L, f, x, y);
  }

  lemma ShortPairRead(L: Layout, f: File, x: byte, y: byte)
    requires 1 < L.C && WellFormed(L, f) && f.size == L.C + 1
    requires Part(L, f, 0) == [x] && Part(L, f, 1) == [y]
    ensures ReadFile(L, f, L.C + 1, 0) == Data([x, y])
  {
    ChunkOf(0, 0, L.C);
    ChunkOf(L.C, 1, L.C);
    ReadFileIs(L, f, L.C + 1, 0, L.C + 1, 0, 2);
    var ps := Parts(L, f, 0, 2);
    assert ps == [[x], [y]];
    assert ps[1..] == [[y]] && [[y]][1..] == [];
    assert Assemble([[y]], 0, L.C) == [y] + Assemble([], 0, L.C - 1);
    assert Assemble(ps, 0, L.C + 1) == [x] + Assemble([[y]], 0, L.C);
  }
}
