/**
 The chunker and dechunker: a byte string cut at chunk boundaries, each piece compressed on its own.
 Both keep a running offset, and the dechunker skips what lies before it in the first chunk; whether one undoes
 the other at an offset depends on where that lies in its chunk.
 */
module CompressLib {
  import opened Bytes
  import opened ChunkedFile

  /**
   `OutOfRange` is the copy that starts past the end of a decoded piece, where `available` has wrapped around;
   `Throws` is a piece that does not decompress.
   */
  datatype Unpacked = Ok(bytes: seq<byte>) | Throws | OutOfRange

  // ---------------------------------------------------------------- the two loops as functions

  /** The uncompressed pieces: each ends at the next multiple of `C` of the running offset. */
  function Pieces(C: pos, data: seq<byte>, offset: nat): seq<seq<byte>>
    decreases |data|
  {
    if data == [] then []
    else
      var take := Min(C - offset % C, |data|);
      [data[..take]] + Pieces(C, data[take..], offset + take)
  }

  function Compressed(z: Codec, ps: seq<seq<byte>>): (cs: seq<seq<byte>>)
    ensures |cs| == |ps|
  {
    seq(|ps|, i requires 0 <= i < |ps| => z.compress(ps[i]))
  }

  function Unpack(z: Codec, C: pos, chunks: seq<seq<byte>>, offset: nat, size: nat): Unpacked
  {
    if chunks == [] || size == 0 then Ok([])
    else
      match z.decompress(chunks[0])
      case None => Throws
      case Some(d) =>
        var skip := offset % C;
        if |d| < skip then OutOfRange
        else
          var take := Min(|d| - skip, size);
          Prepend(d[skip..skip + take], Unpack(z, C, chunks[1..], offset + take, size - take))
  }

  function Prepend(head: seq<byte>, rest: Unpacked): Unpacked
  {
    if rest.Ok? then Ok(head + rest.bytes) else rest
  }

  lemma PrependPrepend(a: seq<byte>, b: seq<byte>, rest: Unpacked)
    ensures Prepend(a, Prepend(b, rest)) == Prepend(a + b, rest)
  {
    if rest.Ok? {
      assert a + (b + rest.bytes) == (a + b) + rest.bytes;
    }
  }

  lemma PiecesOfNothing(C: pos, data: seq<byte>, offset: nat)
    requires data == []
    ensures Pieces(C, data, offset) == []
  {
  }

  lemma PiecesStep(C: pos, data: seq<byte>, done: nat, current: nat, cut: seq<seq<byte>>)
    requires done < |data|
    ensures var take := Min(C - current % C, |data| - done);
            cut + Pieces(C, data[done..], current) ==
            (cut + [data[done..done + take]]) + Pieces(C, data[done + take..], current + take)
  {
    var take := Min(C - current % C, |data| - done);
    assert data[done..][..take] == data[done..done + take] && data[done..][take..] == data[done + take..];
    var piece, rest := data[done..done + take], Pieces(C, data[done + take..], current + take);
    assert Pieces(C, data[done..], current) == [piece] + rest;
    assert cut + ([piece] + rest) == (cut + [piece]) + rest;
  }

  lemma CompressedAppend(z: Codec, ps: seq<seq<byte>>, p: seq<byte>)
    ensures Compressed(z, ps + [p]) == Compressed(z, ps) + [z.compress(p)]
  {
  }

  method CompressFileChunks(z: Codec, C: pos, data: seq<byte>, offset: nat) returns (result: seq<seq<byte>>)
    ensures result == Compressed(z, Pieces(C, data, offset))
  {
    hide Compressed, Pieces;
    result := [];
    assert Compressed(z, []) == [] by {
      assert |Compressed(z, [])| == 0;
    }
    assert data[0..] == data && [] + Pieces(C, data, offset) == Pieces(C, data, offset);
    var processed: nat, current: nat := 0, offset;
    ghost var cut: seq<seq<byte>> := [];
    while processed < |data|
      invariant 0 <= processed <= |data| && current == offset + processed
      invariant Pieces(C, data, offset) == cut + Pieces(C, data[processed..], current)
      invariant result == Compressed(z, cut)
    {
      var take := Min(C - current % C, |data| - processed);
      var piece := data[processed..processed + take];
      PiecesStep(C, data, processed, current, cut);
      CompressedAppend(z, cut, piece);
      result := result + [z.compress(piece)];
      cut := cut + [piece];
      processed, current := processed + take, current + take;
    }
    assert Pieces(C, data[processed..], current) == [] by {
      PiecesOfNothing(C, data[processed..], current);
    }
    assert cut + [] == cut;
  }

  lemma PrependNothing(rest: Unpacked)
    ensures Prepend([], rest) == rest
  {
    if rest.Ok? {
      assert [] + rest.bytes == rest.bytes;
    }
  }

  /** One turn of the loop over the chunks. */
  lemma UnpackStep(z: Codec, C: pos, chunks: seq<seq<byte>>, i: nat, offset: nat, size: nat)
    requires i < |chunks| && 0 < size
    ensures Unpack(z, C, chunks[i..], offset, size) ==
            match z.decompress(chunks[i])
            case None => Throws
            case Some(d) =>
              var skip := offset % C;
              if |d| < skip then OutOfRange
              else
                var take := Min(|d| - skip, size);
                Prepend(d[skip..skip + take], Unpack(z, C, chunks[i + 1..], offset + take, size - take))
  {
    assert chunks[i..][1..] == chunks[i + 1..];
  }

  lemma UnpackNothing(z: Codec, C: pos, chunks: seq<seq<byte>>, offset: nat, size: nat)
    requires chunks == [] || size == 0
    ensures Unpack(z, C, chunks, offset, size) == Ok([])
  {
  }

  method DecompressFileChunks(z: Codec, C: pos, chunks: seq<seq<byte>>, offset: nat, size: nat) returns (r: Unpacked)
    ensures r == Unpack(z, C, chunks, offset, size)
  {
    hide Unpack;
    var result: seq<byte> := [];
    var collected: nat, current: nat := 0, offset;
    var i := 0;
    PrependNothing(Unpack(z, C, chunks, offset, size));
    assert chunks[0..] == chunks;
    while i < |chunks|
      invariant 0 <= i <= |chunks| && collected <= size
      invariant Unpack(z, C, chunks, offset, size) ==
                Prepend(result, Unpack(z, C, chunks[i..], current, size - collected))
    {
      if collected >= size {
        break;
      }
      UnpackStep(z, C, chunks, i, current, size - collected);
      var d := z.decompress(chunks[i]);
      if d == None {
        return Throws;
      }
      var skip := current % C;
      if |d.value| < skip {
        return OutOfRange;
      }
      var take := Min(|d.value| - skip, size - collected);
      PrependPrepend(result, d.value[skip..skip + take],
                     Unpack(z, C, chunks[i + 1..], current + take, size - collected - take));
      result := result + d.value[skip..skip + take];
      collected, current := collected + take, current + take;
      i := i + 1;
    }
    UnpackNothing(z, C, chunks[i..], current, size - collected);
    r := Ok(result);
    assert result + [] == result;
  }

  // ---------------------------------------------------------------- aligned pieces

  /** The pieces of a cut that starts at a chunk boundary. */
  function Split(C: pos, data: seq<byte>): seq<seq<byte>>
    decreases |data|
  {
    if data == [] then [] else [data[..Min(C, |data|)]] + Split(C, data[Min(C, |data|)..])
  }

  lemma ModNext(offset: nat, C: pos)
    ensures (offset + (C - offset % C)) % C == 0
  {
    ChunkOf(offset, offset / C, C);
    assert (offset / C + 1) * C == (offset / C) * C + C;
    ChunkOf(offset + (C - offset % C), offset / C + 1, C);
  }

  lemma {:induction false} AlignedPieces(C: pos, data: seq<byte>, offset: nat)
    requires offset % C == 0
    ensures Pieces(C, data, offset) == Split(C, data)
    decreases |data|
  {
    if data != [] {
      ModNext(offset, C);
      var take := Min(C, |data|);
      if take < C {
        assert data[take..] == [];
      } else {
        AlignedPieces(C, data[take..], offset + take);
      }
    }
  }

  lemma {:induction false} SplitCount(C: pos, data: seq<byte>)
    ensures |Split(C, data)| == CeilDiv(|data|, C)
    ensures forall i :: 0 <= i < |Split(C, data)| ==> 0 < |Split(C, data)[i]| <= C
    decreases |data|
  {
    if data == [] {
      ChunkOf(C - 1, 0, C);
    } else if |data| <= C {
      CeilDivStep(|data|, C);
      assert data[|data|..] == [];
    } else {
      SplitCount(C, data[C..]);
      CeilDivStep(|data| - C, C);
    }
  }

  lemma {:induction false} SplitDrop(C: pos, data: seq<byte>, k: nat)
    requires k * C <= |data|
    ensures k <= |Split(C, data)| && Split(C, data)[k..] == Split(C, data[k * C..])
    decreases k
  {
    if k > 0 {
      assert k * C == (k - 1) * C + C;
      MulMono(0, k - 1, C);
      SplitDrop(C, data[C..], k - 1);
      assert data[C..][(k - 1) * C..] == data[k * C..];
    } else {
      assert data[0..] == data;
    }
  }

  lemma CompressedDrop(z: Codec, ps: seq<seq<byte>>, k: nat)
    requires k <= |ps|
    ensures Compressed(z, ps)[k..] == Compressed(z, ps[k..])
  {
  }

  lemma UnpackHead(z: Codec, C: pos, data: seq<byte>, offset: nat, size: nat)
    requires 0 < size && data != []
    ensures var skip, first, tail := offset % C, data[..Min(C, |data|)], data[Min(C, |data|)..];
            Unpack(z, C, Compressed(z, Split(C, data)), offset, size) ==
            if |first| < skip then OutOfRange
            else
              var take := Min(|first| - skip, size);
              Prepend(first[skip..skip + take], Unpack(z, C, Compressed(z, Split(C, tail)), offset + take, size - take))
  {
    var first, tail := data[..Min(C, |data|)], data[Min(C, |data|)..];
    var ps := Split(C, data);
    CompressedDrop(z, ps, 1);
    assert ps[0] == first && ps[1..] == Split(C, tail);
    assert z.decompress(Compressed(z, ps)[0]) == Some(first);
  }

  lemma SliceSplit(data: seq<byte>, m: nat, skip: nat, size: nat)
    requires skip <= m <= |data|
    ensures var take := Min(m - skip, size);
            data[..m][skip..skip + take] + Slice(data[m..], 0, size - take) == Slice(data, skip, size)
  {
  }

  /** Unpacking pieces cut at a boundary, starting anywhere in the first of them. */
  lemma {:induction false} UnpackSplit(z: Codec, C: pos, data: seq<byte>, offset: nat, size: nat)
    requires 0 < size && data != []
    ensures Unpack(z, C, Compressed(z, Split(C, data)), offset, size) ==
            if offset % C > |data| then OutOfRange else Ok(Slice(data, offset % C, size))
    decreases |data|
  {
    hide Unpack, Slice, Compressed;
    var skip, m := offset % C, Min(C, |data|);
    var tail := data[m..];
    UnpackHead(z, C, data, offset, size);
    if skip <= m {
      var take := Min(m - skip, size);
      SliceSplit(data, m, skip, size);
      if tail == [] || take == size {
        UnpackNothing(z, C, Compressed(z, Split(C, tail)), offset + take, size - take);
        assert Slice(tail, 0, size - take) == [] by {
          SliceNothing(tail, size - take);
        }
      } else {
        ModNext(offset, C);
        UnpackSplit(z, C, tail, offset + take, size - take);
      }
    }
  }

  lemma SliceNothing(s: seq<byte>, n: nat)
    requires s == [] || n == 0
    ensures Slice(s, 0, n) == []
  {
  }

  // ---------------------------------------------------------------- the two theorems

  /**
   Random access: dropping `o / C` chunks and unpacking from offset `o` yields the slice `[o, o + n)` of the
   original, exactly when `o` is within it, nothing is asked for, or no chunk is left; otherwise the copy runs
   out of range.
   */
  lemma RandomAccess(z: Codec, C: pos, data: seq<byte>, o: nat, n: nat)
    requires o / C <= |Pieces(C, data, 0)|
    ensures var chunks := Compressed(z, Pieces(C, data, 0));
            Unpack(z, C, chunks[o / C..], o, n) ==
            if o <= |data| || n == 0 || o / C == |chunks| then Ok(Slice(data, o, n)) else OutOfRange
  {
    hide Unpack, Split, Slice, Pieces, Compressed, CeilDiv;
    AlignedPieces(C, data, 0);
    SplitCount(C, data);
    var k := o / C;
    ChunkBounds(|data|, o, k, C);
    if k < |Split(C, data)| {
      AccessWithin(z, C, data, k, o, n);
    } else {
      UnpackNothing(z, C, Compressed(z, Split(C, data))[k..], o, n);
      SlicePastEnd(data, o, n);
    }
  }

  lemma ChunkBounds(size: nat, o: nat, k: nat, C: pos)
    requires k == o / C
    ensures k * C <= o && o % C == o - k * C
    ensures if k < CeilDiv(size, C) then k * C < size else size <= o
  {
    ChunkOf(o, k, C);
    CeilDivIs(size, k, C);
  }

  lemma SlicePastEnd(data: seq<byte>, o: nat, n: nat)
    requires |data| <= o || n == 0
    ensures Slice(data, o, n) == []
  {
  }

  lemma AccessWithin(z: Codec, C: pos, data: seq<byte>, k: nat, o: nat, n: nat)
    requires k * C < |data| && k * C <= o && o % C == o - k * C
    ensures k <= |Split(C, data)|
    ensures Unpack(z, C, Compressed(z, Split(C, data))[k..], o, n) ==
            if o <= |data| || n == 0 then Ok(Slice(data, o, n)) else OutOfRange
  {
    hide Unpack, Split, Compressed, Slice;
    SplitDrop(C, data, k);
    CompressedDrop(z, Split(C, data), k);
    AccessRest(z, C, data, k * C, o, n);
  }

  lemma AccessRest(z: Codec, C: pos, data: seq<byte>, base: nat, o: nat, n: nat)
    requires base < |data| && base <= o && o % C == o - base
    ensures Unpack(z, C, Compressed(z, Split(C, data[base..])), o, n) ==
            if o <= |data| || n == 0 then Ok(Slice(data, o, n)) else OutOfRange
  {
    hide Unpack, Split, Compressed;
    if n == 0 {
      UnpackNothing(z, C, Compressed(z, Split(C, data[base..])), o, n);
    } else {
      UnpackSplit(z, C, data[base..], o, n);
      assert o <= |data| ==> Slice(data[base..], o - base, n) == Slice(data, o, n);
    }
  }

  lemma {:induction false} UnpackAtMost(z: Codec, C: pos, ps: seq<seq<byte>>, offset: nat, size: nat)
    ensures Unpack(z, C, Compressed(z, ps), offset, size).Ok? ==>
              |Unpack(z, C, Compressed(z, ps), offset, size).bytes| <= TotalLength(ps)
  {
    if ps != [] && size > 0 && offset % C <= |ps[0]| {
      var take := Min(|ps[0]| - offset % C, size);
      CompressedDrop(z, ps, 1);
      UnpackAtMost(z, C, ps[1..], offset + take, size - take);
    }
  }

  function TotalLength(ps: seq<seq<byte>>): nat
  {
    if ps == [] then 0 else |ps[0]| + TotalLength(ps[1..])
  }

  lemma {:induction false} PiecesLength(C: pos, data: seq<byte>, offset: nat)
    ensures TotalLength(Pieces(C, data, offset)) == |data|
    decreases |data|
  {
    if data != [] {
      var take := Min(C - offset % C, |data|);
      PiecesLength(C, data[take..], offset + take);
    }
  }

  /**
   Compressing at an offset and unpacking at the same offset is the identity exactly for chunk-aligned offsets:
   the chunker takes the offset as where the data starts, the dechunker as where to start in the first chunk.
   */
  lemma RoundTripIffAligned(z: Codec, C: pos, data: seq<byte>, offset: nat)
    ensures Unpack(z, C, Compressed(z, Pieces(C, data, offset)), offset, |data|) == Ok(data) <==>
            data == [] || offset % C == 0
  {
    hide Unpack, Compressed, Pieces, Split, TotalLength;
    if data == [] {
      UnpackNothing(z, C, Compressed(z, Pieces(C, data, offset)), offset, 0);
    } else if offset % C == 0 {
      AlignedPieces(C, data, offset);
      UnpackSplit(z, C, data, offset, |data|);
      assert Slice(data, 0, |data|) == data;
    } else {
      UnalignedIsShort(z, C, data, offset);
    }
  }

  lemma UnalignedIsShort(z: Codec, C: pos, data: seq<byte>, offset: nat)
    requires data != [] && offset % C != 0
    ensures var r := Unpack(z, C, Compressed(z, Pieces(C, data, offset)), offset, |data|); r.Ok? ==> |r.bytes| < |data|
  {
    hide Unpack, Compressed;
    var ps := Pieces(C, data, offset);
    PiecesLength(C, data, offset);
    var chunks := Compressed(z, ps);
    assert chunks[0..] == chunks && z.decompress(chunks[0]) == Some(ps[0]) by {
      CompressedAt(z, ps, 0);
    }
    UnpackStep(z, C, chunks, 0, offset, |data|);
    if offset % C <= |ps[0]| {
      var take := Min(|ps[0]| - offset % C, |data|);
      CompressedDrop(z, ps, 1);
      UnpackAtMost(z, C, ps[1..], offset + take, |data| - take);
    }
  }

  lemma CompressedAt(z: Codec, ps: seq<seq<byte>>, i: nat)
    requires i < |ps|
    ensures z.decompress(Compressed(z, ps)[i]) == Some(ps[i])
  {
  }
}
