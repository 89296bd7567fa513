/**
 The totals behind `/.cfs_stats`, and the names of the chunk files they count:
 - the loop over the texts of all indexed paths, in 64 bits;
 - and, where index, records and chunk files agree, what its sums are.
 */
module Stats {
  import opened Bytes
  import opened FileIds
  import opened Numerals
  import opened ChunkedFile
  import opened Namespace
  import TextMeta

  // ---------------------------------------------------------------- sums over sets

  ghost function Sum<T>(s: set<T>, f: T -> nat): nat
  {
    if s == {} then 0 else
      var x :| x in s;
      f(x) + Sum(s - {x}, f)
  }

  /** The sum does not depend on the order in which elements are taken. */
  lemma {:induction false} SumPick<T>(s: set<T>, f: T -> nat, x: T)
    requires x in s
    ensures Sum(s, f) == f(x) + Sum(s - {x}, f)
    decreases s
  {
    var y :| y in s && Sum(s, f) == f(y) + Sum(s - {y}, f);
    if y != x {
      SumPick(s - {y}, f, x);
      SumPick(s - {x}, f, y);
      assert s - {y} - {x} == s - {x} - {y};
    }
  }

  lemma {:induction false} SumUnion<T>(a: set<T>, b: set<T>, f: T -> nat)
    requires a !! b
    ensures Sum(a + b, f) == Sum(a, f) + Sum(b, f)
    decreases a
  {
    if a == {} {
      assert a + b == b;
    } else {
      var x :| x in a;
      SumPick(a, f, x);
      SumPick(a + b, f, x);
      SumUnion(a - {x}, b, f);
      assert (a + b) - {x} == (a - {x}) + b;
    }
  }

  // ---------------------------------------------------------------- the totals of a state

  /** The sizes of the chunk files on disk. */
  function BlobSize(blobs: map<ChunkKey, seq<byte>>): ChunkKey -> nat
  {
    (k: ChunkKey) => if k in blobs then |blobs[k]| else 0
  }

  function LogicalOf(s: Fs): string -> nat
  {
    (p: string) => if p in s.index && s.index[p] in s.metas then s.metas[s.index[p]].logicalSize else 0
  }

  function CompressedOf(s: Fs): string -> nat
  {
    (p: string) => if p in s.index && s.index[p] in s.metas then s.metas[s.index[p]].compressedSize else 0
  }

  function KeysBelow(blobs: map<ChunkKey, seq<byte>>, id: string, n: nat): set<ChunkKey>
  {
    set k | k in blobs && k.0 == id && k.1 < n
  }

  lemma {:induction false} SumOneFile(blobs: map<ChunkKey, seq<byte>>, id: string, n: nat)
    ensures Sum(KeysBelow(blobs, id, n), BlobSize(blobs)) == DiskSum(BlobsOf(blobs, id), n)
  {
    if n == 0 {
      assert KeysBelow(blobs, id, 0) == {};
    } else {
      SumOneFile(blobs, id, n - 1);
      BlobAt(blobs, id, n - 1);
      var k: ChunkKey := (id, n - 1);
      if k in blobs {
        SumPick(KeysBelow(blobs, id, n), BlobSize(blobs), k);
        assert KeysBelow(blobs, id, n) - {k} == KeysBelow(blobs, id, n - 1);
      } else {
        assert KeysBelow(blobs, id, n) == KeysBelow(blobs, id, n - 1);
      }
    }
  }

  /** The chunk files of the given paths. */
  ghost function KeysOf(s: Fs, ps: set<string>): set<ChunkKey>
  {
    set k | k in s.blobs && IdOfSome(s, ps, k.0)
  }

  ghost predicate IdOfSome(s: Fs, ps: set<string>, id: string)
  {
    exists p :: p in ps && p in s.index && s.index[p] == id
  }

  lemma FileKeys(L: Layout, s: Fs, p: string)
    requires Inv(L, s) && p in s.index
    ensures s.index[p] in s.metas
    ensures KeysOf(s, {p}) == KeysBelow(s.blobs, s.index[p], s.metas[s.index[p]].nChunks)
    ensures CompressedOf(s)(p) == DiskSum(BlobsOf(s.blobs, s.index[p]), s.metas[s.index[p]].nChunks)
  {
    assert IndexedPath(s, p);
    var id := s.index[p];
    assert GoodFile(L, s, id);
    NoOrphans(L, s);
    assert IdOfSome(s, {p}, id);
  }

  /** The chunk files of one of the paths, and those of the others. */
  lemma KeysSplit(L: Layout, s: Fs, ps: set<string>, p: string)
    requires Inv(L, s) && ps <= s.index.Keys && p in ps
    ensures KeysOf(s, ps) == KeysOf(s, {p}) + KeysOf(s, ps - {p}) && KeysOf(s, {p}) !! KeysOf(s, ps - {p})
  {
    forall id ensures IdOfSome(s, ps, id) <==> IdOfSome(s, {p}, id) || IdOfSome(s, ps - {p}, id) {
      if q :| q in ps && q in s.index && s.index[q] == id {
        assert q == p || q in ps - {p};
      }
    }
    forall id | IdOfSome(s, ps - {p}, id) ensures !IdOfSome(s, {p}, id) {
      var q :| q in ps - {p} && q in s.index && s.index[q] == id;
      assert OnePath(s, p, q);
    }
  }

  lemma {:induction false} SumOfPaths(L: Layout, s: Fs, ps: set<string>)
    requires Inv(L, s) && ps <= s.index.Keys
    ensures Sum(ps, CompressedOf(s)) == Sum(KeysOf(s, ps), BlobSize(s.blobs))
    decreases ps
  {
    if ps == {} {
      assert KeysOf(s, ps) == {};
    } else {
      var p :| p in ps;
      SumPick(ps, CompressedOf(s), p);
      SumOfPaths(L, s, ps - {p});
      FileKeys(L, s, p);
      SumOneFile(s.blobs, s.index[p], s.metas[s.index[p]].nChunks);
      KeysSplit(L, s, ps, p);
      hide KeysOf, IdOfSome, Inv;
      SumUnion(KeysOf(s, {p}), KeysOf(s, ps - {p}), BlobSize(s.blobs));
    }
  }

  /** Under the namespace invariant the recorded compressed sizes add up to the bytes of all chunk files. */
  lemma CompressedTotal(L: Layout, s: Fs)
    requires Inv(L, s)
    ensures Sum(s.index.Keys, CompressedOf(s)) == Sum(s.blobs.Keys, BlobSize(s.blobs))
  {
    SumOfPaths(L, s, s.index.Keys);
    NoOrphans(L, s);
    forall k | k in s.blobs ensures IdOfSome(s, s.index.Keys, k.0) {
      var p :| p in s.index && s.index[p] == k.0;
    }
    assert KeysOf(s, s.index.Keys) == s.blobs.Keys;
  }

  // ---------------------------------------------------------------- accumulate_stats

  /** The two running sums, in 64 bits. */
  datatype Totals = Totals(logical: u64, compressed: u64)

  const NOTHING := Totals(0, 0)

  function AddU64(a: u64, b: u64): u64
  {
    (a + b) % TWO_64
  }

  function Plus(t: Totals, u: Totals): Totals
  {
    Totals(AddU64(t.logical, u.logical), AddU64(t.compressed, u.compressed))
  }

  lemma PlusLaws(t: Totals, u: Totals, v: Totals)
    ensures Plus(t, NOTHING) == t && Plus(NOTHING, t) == t
    ensures Plus(Plus(t, u), v) == Plus(t, Plus(u, v))
  {
    hide AddU64;
    AddZero(t.logical);
    AddZero(t.compressed);
    AddAssoc(t.logical, u.logical, v.logical);
    AddAssoc(t.compressed, u.compressed, v.compressed);
  }

  lemma AddZero(a: u64)
    ensures AddU64(a, 0) == a && AddU64(0, a) == a
  {
  }

  lemma AddMod(a: nat, b: nat)
    ensures (a + b) % TWO_64 == (a % TWO_64 + b) % TWO_64
  {
  }

  lemma AddAssoc(a: u64, b: u64, c: u64)
    ensures AddU64(AddU64(a, b), c) == AddU64(a, AddU64(b, c))
  {
    AddMod(a + b, c);
    AddMod(b + c, a);
  }

  /** One key and value of a metadata text; None is an exception of the parse. */
  function AddField(t: Totals, key: string, val: string): Option<Totals>
  {
    if key == "logical_size" then
      var v := ParseUnsigned(val, 10);
      if v == None then None else Some(Plus(t, Totals(v.value % TWO_64, 0)))
    else if key == "comp_size" then
      var v := ParseUnsigned(val, 10);
      if v == None then None else Some(Plus(t, Totals(0, v.value % TWO_64)))
    else Some(t)
  }

  function AddTokens(ts: seq<string>, t: Totals): Option<Totals>
  {
    if |ts| < 2 then Some(t)
    else
      match AddField(t, ts[0], ts[1])
      case None => None
      case Some(t') => AddTokens(ts[2..], t')
  }

  method AddText(text: string, start: Totals) returns (r: Option<Totals>)
    ensures r == AddTokens(TextMeta.Tokens(text), start)
  {
    var ts := TextMeta.Tokens(text);
    var t := start;
    var i := 0;
    assert ts[0..] == ts;
    while i + 2 <= |ts|
      invariant 0 <= i <= |ts| && AddTokens(ts, start) == AddTokens(ts[i..], t)
    {
      assert ts[i..][0] == ts[i] && ts[i..][1] == ts[i + 1] && ts[i..][2..] == ts[i + 2..];
      var next := AddField(t, ts[i], ts[i + 1]);
      if next == None {
        return None;
      }
      t := next.value;
      i := i + 2;
    }
    r := Some(t);
  }

  function AddFields(fs: seq<TextMeta.Field>, t: Totals): Option<Totals>
  {
    if fs == [] then Some(t)
    else
      match AddField(t, fs[0].0, fs[0].1)
      case None => None
      case Some(t') => AddFields(fs[1..], t')
  }

  lemma {:induction false} TokensAreFields(fs: seq<TextMeta.Field>, t: Totals)
    requires forall i :: 0 <= i < |fs| ==> TextMeta.TokenField(fs[i])
    ensures AddTokens(TextMeta.Tokens(TextMeta.FieldsText(fs)), t) == AddFields(fs, t)
  {
    if fs != [] {
      TextMeta.TokensOfField(fs[0], TextMeta.FieldsText(fs[1..]));
      var ts := TextMeta.Tokens(TextMeta.FieldsText(fs));
      assert ts[0] == fs[0].0 && ts[1] == fs[0].1 && ts[2..] == TextMeta.Tokens(TextMeta.FieldsText(fs[1..]));
      var next := AddField(t, fs[0].0, fs[0].1);
      if next.Some? {
        TokensAreFields(fs[1..], next.value);
      }
    }
  }

  lemma LogicalField(t: Totals, key: string, val: string, n: u64)
    requires key == "logical_size" && ParseUnsigned(val, 10) == Some(n)
    ensures AddField(t, key, val) == Some(Plus(t, Totals(n, 0)))
  {
    hide ParseUnsigned, Plus;
  }

  lemma CompressedField(t: Totals, key: string, val: string, n: u64)
    requires key == "comp_size" && ParseUnsigned(val, 10) == Some(n)
    ensures AddField(t, key, val) == Some(Plus(t, Totals(0, n)))
  {
    hide ParseUnsigned, Plus;
    assert |key| == 9;
  }

  lemma AddSizes(t: Totals, n: u64)
    ensures AddField(t, "logical_size", Print(n, 10)) == Some(Plus(t, Totals(n, 0)))
    ensures AddField(t, "comp_size", Print(n, 10)) == Some(Plus(t, Totals(0, n)))
  {
    hide Print, ParseUnsigned, Plus, AddField;
    UnsignedRoundTrip(n, 10);
    LogicalField(t, "logical_size", Print(n, 10), n);
    CompressedField(t, "comp_size", Print(n, 10), n);
  }

  predicate SizeKey(key: string)
  {
    key == "logical_size" || key == "comp_size"
  }

  lemma AddOther(t: Totals, key: string, val: string)
    requires !SizeKey(key)
    ensures AddField(t, key, val) == Some(t)
  {
  }

  lemma FourFields(fs: seq<TextMeta.Field>, t: Totals, m: u64, n: u64)
    requires |fs| >= 4 && !SizeKey(fs[0].0) && !SizeKey(fs[1].0)
    requires fs[2] == ("logical_size", Print(m, 10)) && fs[3] == ("comp_size", Print(n, 10))
    ensures AddFields(fs, t) == AddFields(fs[4..], Plus(t, Totals(m, n)))
  {
    hide *;
    var t1 := Plus(t, Totals(m, 0));
    assert fs[0..] == fs;
    AddStep(fs, 0, t);
    AddOther(t, fs[0].0, fs[0].1);
    AddStep(fs, 1, t);
    AddOther(t, fs[1].0, fs[1].1);
    AddStep(fs, 2, t);
    AddSizes(t, m);
    AddStep(fs, 3, t1);
    AddSizes(t1, n);
    PlusLaws(t, Totals(m, 0), Totals(0, n));
    BothSizes(m, n);
  }

  lemma BothSizes(m: u64, n: u64)
    ensures Plus(Totals(m, 0), Totals(0, n)) == Totals(m, n)
  {
  }

  lemma SavedHead(m: FileMeta, t: Totals)
    requires TextMeta.Bounded(m)
    ensures var fs := TextMeta.Fields(m);
            AddFields(fs, t) == AddFields(fs[4..], Plus(t, Totals(m.logicalSize, m.compressedSize)))
  {
    hide Print, PrintSigned, ParseUnsigned, AddFields, Plus;
    assert "logical_path"[8] != "logical_size"[8];
    FourFields(TextMeta.Fields(m), t, m.logicalSize, m.compressedSize);
  }

  lemma OtherKeys(m: FileMeta)
    ensures var fs := TextMeta.Fields(m)[4..];
            forall i :: 0 <= i < |fs| ==> fs[i].0 != "logical_size" && fs[i].0 != "comp_size"
  {
    hide Print, PrintSigned;
  }

  /** Adding up a saved record counts its two sizes once each. */
  lemma SavedTotals(m: FileMeta, t: Totals)
    requires TextMeta.Bounded(m) && TextMeta.IsToken(m.pathId) && TextMeta.IsToken(m.logicalPath)
    ensures AddTokens(TextMeta.Tokens(TextMeta.SaveText(m)), t) ==
            Some(Plus(t, Totals(m.logicalSize, m.compressedSize)))
  {
    TextMeta.FieldsAreTokens(m);
    TokensAreFields(TextMeta.Fields(m), t);
    SavedHead(m, t);
    OtherKeys(m);
    hide AddFields, TextMeta.Fields, Plus;
    PlainFields(TextMeta.Fields(m)[4..], Plus(t, Totals(m.logicalSize, m.compressedSize)));
  }

  lemma AddStep(fs: seq<TextMeta.Field>, i: nat, t: Totals)
    requires i < |fs|
    ensures AddFields(fs[i..], t) ==
            match AddField(t, fs[i].0, fs[i].1)
            case None => None
            case Some(t') => AddFields(fs[i + 1..], t')
  {
    assert fs[i..][0] == fs[i] && fs[i..][1..] == fs[i + 1..];
  }

  lemma {:induction false} PlainFields(fs: seq<TextMeta.Field>, t: Totals)
    requires forall i :: 0 <= i < |fs| ==> fs[i].0 != "logical_size" && fs[i].0 != "comp_size"
    ensures AddFields(fs, t) == Some(t)
  {
    if fs != [] {
      PlainFields(fs[1..], t);
    }
  }

  // ---------------------------------------------------------------- the loop over the index

  /** What one metadata file adds: nothing when it cannot be opened, None when a number in it does not parse. */
  function TextTotals(texts: map<string, string>, id: string): Option<Totals>
  {
    if id in texts then AddTokens(TextMeta.Tokens(texts[id]), NOTHING) else Some(NOTHING)
  }

  function LogicalIn(index: map<string, string>, texts: map<string, string>): string -> nat
  {
    (p: string) =>
      if p in index && TextTotals(texts, index[p]).Some? then TextTotals(texts, index[p]).value.logical else 0
  }

  function CompressedIn(index: map<string, string>, texts: map<string, string>): string -> nat
  {
    (p: string) =>
      if p in index && TextTotals(texts, index[p]).Some? then TextTotals(texts, index[p]).value.compressed else 0
  }

  /** The totals over some of the paths. */
  ghost function TotalsOf(index: map<string, string>, texts: map<string, string>, ps: set<string>): Totals
  {
    Totals(Sum(ps, LogicalIn(index, texts)) % TWO_64, Sum(ps, CompressedIn(index, texts)) % TWO_64)
  }

  lemma TotalsAdd(index: map<string, string>, texts: map<string, string>, ps: set<string>, p: string)
    requires p in index && p !in ps && TextTotals(texts, index[p]).Some?
    ensures TotalsOf(index, texts, ps + {p}) ==
            Plus(TotalsOf(index, texts, ps), TextTotals(texts, index[p]).value)
  {
    hide AddTokens, TextTotals, Sum, AddU64;
    SumAdd(ps, LogicalIn(index, texts), p);
    SumAdd(ps, CompressedIn(index, texts), p);
  }

  lemma SumAdd<T>(s: set<T>, f: T -> nat, x: T)
    requires x !in s && f(x) < TWO_64
    ensures Sum(s + {x}, f) % TWO_64 == AddU64(Sum(s, f) % TWO_64, f(x))
  {
    assert s + {x} - {x} == s;
    SumPick(s + {x}, f, x);
    hide Sum;
    AddMod(Sum(s, f), f(x));
  }

  /** The running totals only shift what a text adds. */
  lemma {:induction false} AddShift(ts: seq<string>, t: Totals)
    ensures AddTokens(ts, t) ==
            match AddTokens(ts, NOTHING)
            case None => None
            case Some(u) => Some(Plus(t, u))
  {
    hide AddField, Plus;
    PlusLaws(t, NOTHING, NOTHING);
    if |ts| >= 2 {
      FieldShift(ts[0], ts[1], t);
      var first := AddField(NOTHING, ts[0], ts[1]);
      if first.Some? {
        AddShift(ts[2..], first.value);
        AddShift(ts[2..], Plus(t, first.value));
        if AddTokens(ts[2..], NOTHING).Some? {
          PlusLaws(t, first.value, AddTokens(ts[2..], NOTHING).value);
        }
      }
    }
  }

  lemma FieldShift(key: string, val: string, t: Totals)
    ensures AddField(t, key, val) ==
            match AddField(NOTHING, key, val)
            case None => None
            case Some(u) => Some(Plus(t, u))
  {
    hide ParseUnsigned, Plus;
    forall u: Totals ensures Plus(t, Plus(NOTHING, u)) == Plus(t, u) {
      PlusLaws(u, u, u);
    }
    PlusLaws(t, t, t);
  }

  /** One turn of the loop. */
  method AddPath(texts: map<string, string>, id: string, t: Totals) returns (r: Option<Totals>)
    ensures r.Some? <==> TextTotals(texts, id).Some?
    ensures r.Some? ==> r.value == Plus(t, TextTotals(texts, id).value)
  {
    if id !in texts {
      return Some(t);
    }
    AddShift(TextMeta.Tokens(texts[id]), t);
    r := AddText(texts[id], t);
  }

  /** What `accumulate_stats` computes; None when some number does not parse. */
  ghost function StatsOf(index: map<string, string>, texts: map<string, string>): Option<Totals>
  {
    if exists p :: p in index && TextTotals(texts, index[p]) == None then None
    else Some(TotalsOf(index, texts, index.Keys))
  }

  /** `accumulate_stats`: the sums over all indexed paths, in whatever order the map is walked. */
  method AccumulateStats(index: map<string, string>, texts: map<string, string>) returns (r: Option<Totals>)
    ensures r == StatsOf(index, texts)
  {
    hide AddTokens, TextTotals, TotalsOf;
    var t := NOTHING;
    var todo := index.Keys;
    NoTotals(index, texts);
    while todo != {}
      invariant todo <= index.Keys && t == TotalsOf(index, texts, index.Keys - todo)
      invariant forall p :: p in index && p !in todo ==> TextTotals(texts, index[p]).Some?
      decreases |todo|
    {
      var path :| path in todo;
      var next := AddPath(texts, index[path], t);
      if next == None {
        return None;
      }
      TotalsAdd(index, texts, index.Keys - todo, path);
      Visited(index.Keys, todo, path);
      t := next.value;
      todo := todo - {path};
    }
    Unvisited(index.Keys, todo);
    r := Some(t);
  }

  lemma NoTotals(index: map<string, string>, texts: map<string, string>)
    ensures TotalsOf(index, texts, index.Keys - index.Keys) == NOTHING
  {
    assert index.Keys - index.Keys == {};
  }

  lemma Visited<T>(all: set<T>, todo: set<T>, x: T)
    requires x in todo && todo <= all
    ensures (all - todo) + {x} == all - (todo - {x})
  {
  }

  lemma Unvisited<T>(all: set<T>, todo: set<T>)
    requires todo == {}
    ensures all - todo == all
  {
  }

  lemma {:induction false} SumAgree<T>(s: set<T>, f: T -> nat, g: T -> nat)
    requires forall x :: x in s ==> f(x) == g(x)
    ensures Sum(s, f) == Sum(s, g)
    decreases s
  {
    if s != {} {
      var x :| x in s;
      SumPick(s, f, x);
      SumPick(s, g, x);
      SumAgree(s - {x}, f, g);
    }
  }

  /** The text of `/.cfs_stats`; how the stream prints the ratio is left open. */
  function StatsText(t: Totals, ratio: string): string
  {
    "logical_bytes " + Print(t.logical, 10) + "\ncompressed_bytes " + Print(t.compressed, 10) +
    "\nratio " + ratio + "\n"
  }

  /** The characters of a text as bytes. */
  function AsBytes(s: string): (b: seq<byte>)
    ensures |b| == |s|
  {
    seq(|s|, i requires 0 <= i < |s| => (s[i] as int % 256) as byte)
  }

  // ---------------------------------------------------------------- chunk file names

  /** `chunk_path` below the data directory. */
  function ChunkPath(dir: string, id: string, i: nat): string
  {
    dir + "/" + id + "_" + Print(i, 10) + ".dat"
  }

  /** The longest suffix without an underscore. */
  function LastPart(s: string): string
  {
    if s == "" || s[|s| - 1] == '_' then "" else LastPart(s[..|s| - 1]) + [s[|s| - 1]]
  }

  lemma {:induction false} LastPartOf(a: string, d: string)
    requires '_' !in d
    ensures LastPart(a + "_" + d) == d
  {
    var s := a + "_" + d;
    if d != "" {
      assert s[|s| - 1] == d[|d| - 1] && d[|d| - 1] in d;
      assert s[..|s| - 1] == a + "_" + d[..|d| - 1];
      LastPartOf(a, d[..|d| - 1]);
    }
  }

  lemma SplitSuffix(x: string, y: string, suffix: string)
    ensures x + suffix == y + suffix <==> x == y
    ensures suffix + x == suffix + y <==> x == y
  {
    if x + suffix == y + suffix {
      assert x == (x + suffix)[..|x|] && y == (y + suffix)[..|y|];
    }
    if suffix + x == suffix + y {
      assert x == (suffix + x)[|suffix|..] && y == (suffix + y)[|suffix|..];
    }
  }

  /** Distinct chunks have distinct file names, whatever the ids. */
  lemma ChunkPathInjective(dir: string, id: string, i: nat, id': string, i': nat)
    requires ChunkPath(dir, id, i) == ChunkPath(dir, id', i')
    ensures id == id' && i == i'
  {
    var d, e := Print(i, 10), Print(i', 10);
    PrintValue(i, 10);
    PrintValue(i', 10);
    NoUnderscore(d);
    NoUnderscore(e);
    hide Print;
    NameParts(dir, id, d);
    NameParts(dir, id', e);
    SplitSuffix(id + "_" + d + ".dat", id' + "_" + e + ".dat", dir + "/");
    SplitSuffix(id + "_" + d, id' + "_" + e, ".dat");
    LastPartOf(id, d);
    LastPartOf(id', e);
    SplitSuffix(id + "_", id' + "_", d);
    SplitSuffix(id, id', "_");
  }

  lemma NameParts(dir: string, id: string, d: string)
    ensures dir + "/" + id + "_" + d + ".dat" == (dir + "/") + (id + "_" + d + ".dat")
  {
  }

  lemma NoUnderscore(d: string)
    requires AllDigits(d, 10)
    ensures '_' !in d
  {
    forall i | 0 <= i < |d| ensures d[i] != '_' {
      assert Digit(d[i]) < 10;
    }
  }
}
