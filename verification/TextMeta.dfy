/** The text metadata of a file, one key and value to a line, and the tab-separated index of paths. */
module TextMeta {
  import opened Bytes
  import opened FileIds
  import opened Numerals
  import Listing

  // ---------------------------------------------------------------- whitespace-separated tokens

  predicate IsSpace(c: char)
  {
    c == ' ' || c == '\t' || c == '\n' || c == '\U{000b}' || c == '\U{000c}' || c == '\r'
  }

  /** A nonempty string without whitespace: what `operator>>` reads into a string. */
  predicate IsToken(s: string)
  {
    s != "" && forall i :: 0 <= i < |s| ==> !IsSpace(s[i])
  }

  function FirstWord(s: string): (w: string)
    ensures w <= s && (forall i :: 0 <= i < |w| ==> !IsSpace(w[i])) && (|w| < |s| ==> IsSpace(s[|w|]))
  {
    if s == "" || IsSpace(s[0]) then "" else [s[0]] + FirstWord(s[1..])
  }

  /** The tokens of a stream, in order. */
  function Tokens(s: string): (ts: seq<string>)
    ensures forall i :: 0 <= i < |ts| ==> IsToken(ts[i])
    decreases |s|
  {
    if s == "" then []
    else if IsSpace(s[0]) then Tokens(s[1..])
    else [FirstWord(s)] + Tokens(s[|FirstWord(s)|..])
  }

  lemma {:induction false} FirstWordOf(w: string, rest: string)
    requires (forall i :: 0 <= i < |w| ==> !IsSpace(w[i])) && (rest == "" || IsSpace(rest[0]))
    ensures FirstWord(w + rest) == w
  {
    if w == "" {
      assert w + rest == rest;
    } else {
      assert (w + rest)[1..] == w[1..] + rest;
      FirstWordOf(w[1..], rest);
    }
  }

  lemma TokensHead(w: string, rest: string)
    requires IsToken(w) && rest != "" && IsSpace(rest[0])
    ensures Tokens(w + rest) == [w] + Tokens(rest[1..])
  {
    FirstWordOf(w, rest);
    assert (w + rest)[0] == w[0] && (w + rest)[|w|..] == rest;
  }

  lemma {:induction false} TokensExist(s: string, i: nat)
    requires i < |s| && !IsSpace(s[i])
    ensures Tokens(s) != []
  {
    if IsSpace(s[0]) {
      TokensExist(s[1..], i - 1);
    }
  }

  // ---------------------------------------------------------------- records as key-value lines

  type Field = (string, string)

  function FieldText(f: Field): string
  {
    f.0 + " " + f.1 + "\n"
  }

  function FieldsText(fs: seq<Field>): string
  {
    if fs == [] then "" else FieldText(fs[0]) + FieldsText(fs[1..])
  }

  function Fields(m: FileMeta): seq<Field>
  {
    [("path_id", m.pathId), ("logical_path", m.logicalPath), ("logical_size", Print(m.logicalSize, 10)),
     ("comp_size", Print(m.compressedSize, 10)), ("chunk_size", Print(m.chunkSize, 10)),
     ("n_chunks", Print(m.nChunks, 10)), ("atime", PrintSigned(m.atime)), ("mtime", PrintSigned(m.mtime)),
     ("ctime", PrintSigned(m.ctime)), ("mode", Print(m.mode, 8))]
  }

  function SaveText(m: FileMeta): string
  {
    FieldsText(Fields(m))
  }

  method Save(m: FileMeta) returns (f: string)
    ensures f == SaveText(m)
  {
    var fs := Fields(m);
    f := "";
    var i := 0;
    assert fs[0..] == fs;
    while i < |fs|
      invariant 0 <= i <= |fs| && FieldsText(fs) == f + FieldsText(fs[i..])
    {
      assert fs[i..][0] == fs[i] && fs[i..][1..] == fs[i + 1..];
      assert f + (FieldText(fs[i]) + FieldsText(fs[i + 1..])) == (f + FieldText(fs[i])) + FieldsText(fs[i + 1..]);
      f := f + FieldText(fs[i]);
      i := i + 1;
    }
    assert f + "" == f;
  }

  /** One turn of the load loop; None is an exception of a number parse. */
  function Apply(m: FileMeta, key: string, val: string): Option<FileMeta>
  {
    if key == "logical_path" then Some(m.(logicalPath := val))
    else if key == "path_id" then Some(m.(pathId := val))
    else if key == "logical_size" then WithNat(ParseUnsigned(val, 10), (n: nat) => m.(logicalSize := n))
    else if key == "comp_size" then WithNat(ParseUnsigned(val, 10), (n: nat) => m.(compressedSize := n))
    else if key == "chunk_size" then WithNat(ParseUnsigned(val, 10), (n: nat) => m.(chunkSize := n))
    else if key == "n_chunks" then WithNat(ParseUnsigned(val, 10), (n: nat) => m.(nChunks := n))
    else if key == "atime" then WithInt(ParseSigned(val), (i: int) => m.(atime := i))
    else if key == "mtime" then WithInt(ParseSigned(val), (i: int) => m.(mtime := i))
    else if key == "ctime" then WithInt(ParseSigned(val), (i: int) => m.(ctime := i))
    else if key == "mode" then WithNat(ParseUnsigned(val, 8), (n: nat) => m.(mode := n % 0x1_0000_0000))
    else Some(m)
  }

  function WithNat(o: Option<nat>, f: nat -> FileMeta): Option<FileMeta>
  {
    if o == None then None else Some(f(o.value))
  }

  function WithInt(o: Option<int>, f: int -> FileMeta): Option<FileMeta>
  {
    if o == None then None else Some(f(o.value))
  }

  function LoadTokens(ts: seq<string>, m: FileMeta): Option<FileMeta>
  {
    if |ts| < 2 then Some(m)
    else
      match Apply(m, ts[0], ts[1])
      case None => None
      case Some(m') => LoadTokens(ts[2..], m')
  }

  function LoadText(text: string, start: FileMeta): Option<FileMeta>
  {
    LoadTokens(Tokens(text), start)
  }

  method Load(text: string, start: FileMeta) returns (r: Option<FileMeta>)
    ensures r == LoadText(text, start)
  {
    var ts := Tokens(text);
    var m := start;
    var i := 0;
    assert ts[0..] == ts;
    while i + 2 <= |ts|
      invariant 0 <= i <= |ts| && LoadTokens(ts, start) == LoadTokens(ts[i..], m)
    {
      var next := Apply(m, ts[i], ts[i + 1]);
      assert ts[i..][0] == ts[i] && ts[i..][1] == ts[i + 1] && ts[i..][2..] == ts[i + 2..];
      if next == None {
        return None;
      }
      m := next.value;
      i := i + 2;
    }
    r := Some(m);
  }

  // ---------------------------------------------------------------- the record round trip

  /** The widths of the record: 64-bit sizes, signed 64-bit times, a 32-bit mode. */
  predicate Bounded(m: FileMeta)
  {
    && m.logicalSize < TWO_64 && m.compressedSize < TWO_64 && m.chunkSize < TWO_64 && m.nChunks < TWO_64
    && -LL <= m.atime < LL && -LL <= m.mtime < LL && -LL <= m.ctime < LL
    && m.mode < 0x1_0000_0000
  }

  lemma OneMoreField(k: string, v: string, rest: seq<Field>)
    ensures FieldsText([(k, v)] + rest) == k + " " + v + "\n" + FieldsText(rest)
  {
    assert ([(k, v)] + rest)[1..] == rest;
  }

  lemma KnownFields()
    ensures Fields(FileMeta("ab", "/x", 5, 13, 4096, 1, 7, -8, 9, 420)) ==
            [("path_id", "ab")] + ([("logical_path", "/x")] + ([("logical_size", "5")] + ([("comp_size", "13")] +
            ([("chunk_size", "4096")] + ([("n_chunks", "1")] + ([("atime", "7")] + ([("mtime", "-8")] +
            ([("ctime", "9")] + ([("mode", "644")] + [])))))))))
  {
    KnownNumbers();
    hide Print;
    assert PrintSigned(-8) == "-8";
  }

  /** One record in full. */
  lemma KnownText()
    ensures SaveText(FileMeta("ab", "/x", 5, 13, 4096, 1, 7, -8, 9, 420)) ==
            "path_id" + " " + "ab" + "\n" + ("logical_path" + " " + "/x" + "\n" +
            ("logical_size" + " " + "5" + "\n" + ("comp_size" + " " + "13" + "\n" +
            ("chunk_size" + " " + "4096" + "\n" + ("n_chunks" + " " + "1" + "\n" +
            ("atime" + " " + "7" + "\n" + ("mtime" + " " + "-8" + "\n" +
            ("ctime" + " " + "9" + "\n" + ("mode" + " " + "644" + "\n" + "")))))))))
  {
    KnownFields();
    assert FieldsText([]) == "";
    hide Fields, FieldsText;
    var f9 := [("ctime", "9")] + ([("mode", "644")] + []);
    var f7 := [("atime", "7")] + ([("mtime", "-8")] + f9);
    var f5 := [("chunk_size", "4096")] + ([("n_chunks", "1")] + f7);
    var f3 := [("logical_size", "5")] + ([("comp_size", "13")] + f5);
    OneMoreField("mode", "644", []);
    OneMoreField("ctime", "9", [("mode", "644")] + []);
    OneMoreField("mtime", "-8", f9);
    OneMoreField("atime", "7", [("mtime", "-8")] + f9);
    OneMoreField("n_chunks", "1", f7);
    OneMoreField("chunk_size", "4096", [("n_chunks", "1")] + f7);
    OneMoreField("comp_size", "13", f5);
    OneMoreField("logical_size", "5", [("comp_size", "13")] + f5);
    OneMoreField("logical_path", "/x", f3);
    OneMoreField("path_id", "ab", [("logical_path", "/x")] + f3);
  }

  lemma KnownNumbers()
    ensures Print(5, 10) == "5" && Print(13, 10) == "13" && Print(4096, 10) == "4096" && Print(1, 10) == "1"
    ensures Print(7, 10) == "7" && Print(8, 10) == "8" && Print(9, 10) == "9" && Print(420, 8) == "644"
  {
  }

  predicate TokenField(f: Field)
  {
    IsToken(f.0) && IsToken(f.1)
  }

  lemma FieldSplit(f: Field, rest: string)
    ensures FieldText(f) + rest == f.0 + (" " + (f.1 + ("\n" + rest)))
  {
  }

  lemma TokensAfter(w: string, sep: string, rest: string)
    requires IsToken(w) && |sep| == 1 && IsSpace(sep[0])
    ensures Tokens(w + (sep + rest)) == [w] + Tokens(rest)
  {
    TokensHead(w, sep + rest);
    hide Tokens, IsToken;
    assert (sep + rest)[1..] == rest;
  }

  lemma TokensOfField(f: Field, rest: string)
    requires TokenField(f)
    ensures Tokens(FieldText(f) + rest) == [f.0, f.1] + Tokens(rest)
  {
    hide Tokens, IsToken, FieldText;
    FieldSplit(f, rest);
    TokensAfter(f.0, " ", f.1 + ("\n" + rest));
    TokensAfter(f.1, "\n", rest);
  }

  function LoadFields(fs: seq<Field>, m: FileMeta): Option<FileMeta>
  {
    if fs == [] then Some(m)
    else
      match Apply(m, fs[0].0, fs[0].1)
      case None => None
      case Some(m') => LoadFields(fs[1..], m')
  }

  /** The token stream of token-valued fields alternates keys and values. */
  lemma {:induction false} LoadTokensFields(fs: seq<Field>, m: FileMeta)
    requires forall i :: 0 <= i < |fs| ==> TokenField(fs[i])
    ensures LoadText(FieldsText(fs), m) == LoadFields(fs, m)
  {
    if fs != [] {
      TokensOfField(fs[0], FieldsText(fs[1..]));
      var ts := Tokens(FieldsText(fs));
      assert ts[0] == fs[0].0 && ts[1] == fs[0].1 && ts[2..] == Tokens(FieldsText(fs[1..]));
      var next := Apply(m, fs[0].0, fs[0].1);
      if next.Some? {
        LoadTokensFields(fs[1..], next.value);
      }
    }
  }

  lemma PrintIsToken(n: nat, b: Base)
    ensures IsToken(Print(n, b))
  {
    PrintValue(n, b);
    var s := Print(n, b);
    assert forall i :: 0 <= i < |s| ==> Digit(s[i]) < b;
  }

  lemma PrintSignedIsToken(i: int)
    ensures IsToken(PrintSigned(i))
  {
    PrintIsToken(if i < 0 then -i else i, 10);
  }

  lemma KeysAreTokens()
    ensures IsToken("path_id") && IsToken("logical_path") && IsToken("logical_size") && IsToken("comp_size")
    ensures IsToken("chunk_size") && IsToken("n_chunks") && IsToken("atime") && IsToken("mtime")
    ensures IsToken("ctime") && IsToken("mode")
  {
  }

  lemma FieldsAreTokens(m: FileMeta)
    requires IsToken(m.pathId) && IsToken(m.logicalPath)
    ensures forall i :: 0 <= i < 10 ==> TokenField(Fields(m)[i])
  {
    PrintIsToken(m.logicalSize, 10);
    PrintIsToken(m.compressedSize, 10);
    PrintIsToken(m.chunkSize, 10);
    PrintIsToken(m.nChunks, 10);
    PrintSignedIsToken(m.atime);
    PrintSignedIsToken(m.mtime);
    PrintSignedIsToken(m.ctime);
    PrintIsToken(m.mode, 8);
    KeysAreTokens();
    hide Print, PrintSigned, IsToken;
  }

  /** `start` with the first `i` fields taken from `m`. */
  function Mixed(m: FileMeta, start: FileMeta, i: nat): FileMeta
  {
    FileMeta(
      if i > 0 then m.pathId else start.pathId, if i > 1 then m.logicalPath else start.logicalPath,
      if i > 2 then m.logicalSize else start.logicalSize, if i > 3 then m.compressedSize else start.compressedSize,
      if i > 4 then m.chunkSize else start.chunkSize, if i > 5 then m.nChunks else start.nChunks,
      if i > 6 then m.atime else start.atime, if i > 7 then m.mtime else start.mtime,
      if i > 8 then m.ctime else start.ctime, if i > 9 then m.mode else start.mode)
  }

  lemma ApplyPaths(m: FileMeta, start: FileMeta, i: nat)
    requires Bounded(m) && i < 2
    ensures Apply(Mixed(m, start, i), Fields(m)[i].0, Fields(m)[i].1) == Some(Mixed(m, start, i + 1))
  {
    hide Print, PrintSigned, ParseUnsigned, ParseSigned;
  }

  lemma ApplySizes(m: FileMeta, start: FileMeta, i: nat)
    requires Bounded(m) && 2 <= i < 6
    ensures Apply(Mixed(m, start, i), Fields(m)[i].0, Fields(m)[i].1) == Some(Mixed(m, start, i + 1))
  {
    UnsignedRoundTrip(m.logicalSize, 10);
    UnsignedRoundTrip(m.compressedSize, 10);
    UnsignedRoundTrip(m.chunkSize, 10);
    UnsignedRoundTrip(m.nChunks, 10);
    hide Print, PrintSigned, ParseUnsigned, ParseSigned;
  }

  lemma ApplyTimes(m: FileMeta, start: FileMeta, i: nat)
    requires Bounded(m) && 6 <= i < 9
    ensures Apply(Mixed(m, start, i), Fields(m)[i].0, Fields(m)[i].1) == Some(Mixed(m, start, i + 1))
  {
    SignedRoundTrip(m.atime);
    SignedRoundTrip(m.mtime);
    SignedRoundTrip(m.ctime);
    hide Print, PrintSigned, ParseUnsigned, ParseSigned;
  }

  lemma ModeBranch(m: FileMeta, key: string, val: string)
    requires key == "mode"
    ensures Apply(m, key, val) == WithNat(ParseUnsigned(val, 8), (n: nat) => m.(mode := n % 0x1_0000_0000))
  {
    hide ParseUnsigned, ParseSigned, WithNat, WithInt;
    assert |key| == 4;
  }

  lemma ModeKey(m: FileMeta, mode: nat)
    requires mode < 0x1_0000_0000
    ensures Apply(m, "mode", Print(mode, 8)) == Some(m.(mode := mode))
  {
    hide Print, ParseUnsigned, ParseSigned, Apply;
    var val := Print(mode, 8);
    UnsignedRoundTrip(mode, 8);
    ModeBranch(m, "mode", val);
    assert ParseUnsigned(val, 8) == Some(mode);
    assert mode % 0x1_0000_0000 == mode;
  }

  lemma ApplyMode(m: FileMeta, start: FileMeta)
    requires Bounded(m)
    ensures Apply(Mixed(m, start, 9), Fields(m)[9].0, Fields(m)[9].1) == Some(Mixed(m, start, 10))
  {
    ModeKey(Mixed(m, start, 9), m.mode);
    hide Apply, Print, PrintSigned;
  }

  lemma {:induction false} LoadsFrom(m: FileMeta, start: FileMeta, i: nat)
    requires Bounded(m) && i <= 10
    ensures LoadFields(Fields(m)[i..], Mixed(m, start, i)) == Some(m)
    decreases 10 - i
  {
    if i < 10 {
      if i < 2 {
        ApplyPaths(m, start, i);
      } else if i < 6 {
        ApplySizes(m, start, i);
      } else if i < 9 {
        ApplyTimes(m, start, i);
      } else {
        ApplyMode(m, start);
      }
      LoadsFrom(m, start, i + 1);
      assert Fields(m)[i..][0] == Fields(m)[i] && Fields(m)[i..][1..] == Fields(m)[i + 1..];
      hide Apply, Fields, Mixed;
    }
  }

  /** Loading never leaves anything but a token in a path field that holds one. */
  lemma {:induction false} LoadKeepsTokens(ts: seq<string>, m: FileMeta)
    requires forall i :: 0 <= i < |ts| ==> IsToken(ts[i])
    ensures LoadTokens(ts, m).Some? && IsToken(m.pathId) ==> IsToken(LoadTokens(ts, m).value.pathId)
    ensures LoadTokens(ts, m).Some? && IsToken(m.logicalPath) ==> IsToken(LoadTokens(ts, m).value.logicalPath)
  {
    if |ts| >= 2 && Apply(m, ts[0], ts[1]).Some? {
      LoadKeepsTokens(ts[2..], Apply(m, ts[0], ts[1]).value);
    }
  }

  /** A loaded record has a token for its id and its path, or what it had before. */
  lemma {:induction false} LoadedTokens(ts: seq<string>, m: FileMeta)
    requires forall i :: 0 <= i < |ts| ==> IsToken(ts[i])
    requires LoadTokens(ts, m).Some?
    ensures var r := LoadTokens(ts, m).value;
            (r.pathId == m.pathId || IsToken(r.pathId)) && (r.logicalPath == m.logicalPath || IsToken(r.logicalPath))
  {
    if |ts| >= 2 {
      LoadedTokens(ts[2..], Apply(m, ts[0], ts[1]).value);
    }
  }

  lemma ParsedBound(s: string, b: Base)
    ensures ParseUnsigned(s, b).Some? ==> ParseUnsigned(s, b).value < TWO_64
    ensures ParseSigned(s).Some? ==> -LL <= ParseSigned(s).value < LL
  {
    hide Magnitude;
  }

  /** A loaded record is within its widths. */
  lemma {:induction false} LoadedBounded(ts: seq<string>, m: FileMeta)
    requires Bounded(m) && LoadTokens(ts, m).Some?
    ensures Bounded(LoadTokens(ts, m).value)
  {
    if |ts| >= 2 {
      ApplyBounded(m, ts[0], ts[1]);
      LoadedBounded(ts[2..], Apply(m, ts[0], ts[1]).value);
    }
  }

  lemma ApplyBounded(m: FileMeta, key: string, val: string)
    requires Bounded(m)
    ensures Apply(m, key, val).Some? ==> Bounded(Apply(m, key, val).value)
  {
    ParsedBound(val, 10);
    ParsedBound(val, 8);
    hide ParseUnsigned, ParseSigned;
  }

  /** Whatever the path id is, the first value read goes to it. */
  lemma LoadedIdIsToken(m: FileMeta, start: FileMeta)
    ensures LoadText(SaveText(m), start).Some? ==> IsToken(LoadText(SaveText(m), start).value.pathId)
  {
    SaveTokens(m);
    var ts := Tokens(SaveText(m));
    hide SaveText, Tokens, IsToken;
    var next := start.(pathId := ts[1]);
    PathIdPair(start, ts[1]);
    LoadPair(ts, start, next);
    LoadKeepsTokens(ts[2..], next);
  }

  lemma PathIdPair(m: FileMeta, val: string)
    ensures Apply(m, "path_id", val) == Some(m.(pathId := val))
  {
    assert |"path_id"| != |"logical_path"|;
  }

  lemma SaveTokens(m: FileMeta)
    ensures var ts := Tokens(SaveText(m)); |ts| >= 2 && ts[0] == "path_id"
  {
    var key, fs, rest := "path_id", Fields(m), m.pathId + ("\n" + FieldsText(Fields(m)[1..]));
    HeadField(fs);
    KeysAreTokens();
    SecondField(m);
    hide Tokens, Fields, IsToken;
    TokensAfter(key, " ", rest);
    assert rest[|m.pathId| + 1] == 'l';
    TokensExist(rest, |m.pathId| + 1);
  }

  lemma HeadField(fs: seq<Field>)
    requires fs != []
    ensures FieldsText(fs) == FieldText(fs[0]) + FieldsText(fs[1..])
    ensures FieldsText(fs) == fs[0].0 + (" " + (fs[0].1 + ("\n" + FieldsText(fs[1..]))))
  {
    FieldSplit(fs[0], FieldsText(fs[1..]));
  }

  lemma SecondField(m: FileMeta)
    ensures FieldsText(Fields(m)[1..]) == "logical_path" + (" " + (m.logicalPath + ("\n" + FieldsText(Fields(m)[2..]))))
  {
    hide Print, PrintSigned, FieldsText;
    HeadField(Fields(m)[1..]);
    assert Fields(m)[1..][1..] == Fields(m)[2..];
  }

  lemma FirstTokens(m: FileMeta)
    requires IsToken(m.pathId)
    ensures |Tokens(SaveText(m))| >= 4
    ensures Tokens(SaveText(m))[0] == "path_id" && Tokens(SaveText(m))[2] == "logical_path"
  {
    var fs := Fields(m);
    assert fs[0] == ("path_id", m.pathId);
    HeadField(fs);
    SecondField(m);
    ThirdField(m);
    KeysAreTokens();
    hide Fields, FieldsText, FieldText, Tokens, IsToken;
    TokensOfField(fs[0], FieldsText(fs[1..]));
    var rest := m.logicalPath + ("\n" + FieldsText(fs[2..]));
    TokensAfter("logical_path", " ", rest);
    assert rest[|m.logicalPath| + 1] == 'l';
    TokensExist(rest, |m.logicalPath| + 1);
  }

  lemma LoadedPathIsToken(m: FileMeta, start: FileMeta)
    requires IsToken(m.pathId)
    ensures LoadText(SaveText(m), start).Some? ==> IsToken(LoadText(SaveText(m), start).value.logicalPath)
  {
    hide Tokens, SaveText, LoadTokens;
    FirstTokens(m);
    var ts := Tokens(SaveText(m));
    var m1 := start.(pathId := ts[1]);
    var m2 := m1.(logicalPath := ts[3]);
    LoadPair(ts, start, m1);
    LoadPair(ts[2..], m1, m2);
    LoadKeepsTokens(ts[2..][2..], m2);
  }

  lemma LoadPair(ts: seq<string>, m: FileMeta, m': FileMeta)
    requires |ts| >= 2 && Apply(m, ts[0], ts[1]) == Some(m')
    ensures LoadTokens(ts, m) == LoadTokens(ts[2..], m')
  {
  }

  lemma ThirdField(m: FileMeta)
    ensures FieldsText(Fields(m)[2..]) != "" && FieldsText(Fields(m)[2..])[0] == 'l'
  {
    var fs := Fields(m)[2..];
    assert fs[0].0 == "logical_size";
  }

  /**
   For a record within its widths, loading what was saved, into any record, gives it back exactly when its path and
   its id are nonempty and free of whitespace.
   */
  lemma RecordRoundTripIff(m: FileMeta, start: FileMeta)
    requires Bounded(m)
    ensures LoadText(SaveText(m), start) == Some(m) <==> IsToken(m.pathId) && IsToken(m.logicalPath)
  {
    hide LoadText, SaveText;
    if IsToken(m.pathId) && IsToken(m.logicalPath) {
      FieldsAreTokens(m);
      LoadTokensFields(Fields(m), start);
      LoadsFrom(m, start, 0);
      assert Fields(m)[0..] == Fields(m) && Mixed(m, start, 0) == start;
      assert SaveText(m) == FieldsText(Fields(m)) by {
        SaveIs(m);
      }
    } else if IsToken(m.pathId) {
      LoadedPathIsToken(m, start);
    } else {
      LoadedIdIsToken(m, start);
    }
  }

  lemma SaveIs(m: FileMeta)
    ensures SaveText(m) == FieldsText(Fields(m))
  {
  }

  // ---------------------------------------------------------------- a path with a space

  /** The ten keys of a record. */
  predicate IsKey(s: string)
  {
    || s == "logical_path" || s == "path_id" || s == "logical_size" || s == "comp_size" || s == "chunk_size"
    || s == "n_chunks" || s == "atime" || s == "mtime" || s == "ctime" || s == "mode"
  }

  lemma NoKeyNoChange(m: FileMeta, key: string, val: string)
    requires !IsKey(key)
    ensures Apply(m, key, val) == Some(m)
  {
  }

  lemma NumberIsNoKey(s: string)
    requires s != "" && (Digit(s[0]) < 10 || s[0] == '-')
    ensures !IsKey(s)
  {
  }

  /** A field whose value is a token and no key. */
  predicate PlainField(f: Field)
  {
    TokenField(f) && !IsKey(f.1)
  }

  /** With one token too many in front, every key of the fields is taken for a value and nothing is loaded. */
  lemma {:induction false} ShiftedFields(w: string, fs: seq<Field>, m: FileMeta)
    requires !IsKey(w) && forall i :: 0 <= i < |fs| ==> PlainField(fs[i])
    ensures LoadTokens([w] + Tokens(FieldsText(fs)), m) == Some(m)
    decreases |fs|
  {
    hide IsKey, IsToken, Tokens, FieldText, Apply;
    if fs == [] {
      EmptyTokens();
      assert |[w] + Tokens(FieldsText(fs))| == 1;
    } else {
      var k, v, rest := fs[0].0, fs[0].1, Tokens(FieldsText(fs[1..]));
      assert PlainField(fs[0]);
      TokensOfField(fs[0], FieldsText(fs[1..]));
      assert [w] + ([k, v] + rest) == [w, k] + ([v] + rest);
      NoKeyNoChange(m, w, k);
      LoadPair([w, k] + ([v] + rest), m, m);
      assert ([w, k] + ([v] + rest))[2..] == [v] + rest;
      ShiftedFields(v, fs[1..], m);
    }
  }

  lemma EmptyTokens()
    ensures Tokens(FieldsText([])) == []
  {
  }

  lemma {:induction false} PrintedIsNoKey(n: nat, b: Base)
    ensures !IsKey(Print(n, b))
  {
    PrintValue(n, b);
    assert Digit(Print(n, b)[0]) < b;
    hide Print;
    NumberIsNoKey(Print(n, b));
  }

  lemma SignedIsNoKey(i: int)
    ensures !IsKey(PrintSigned(i))
  {
    if i < 0 {
      NumberIsNoKey(PrintSigned(i));
    } else {
      PrintedIsNoKey(i, 10);
    }
  }

  lemma NumberFields(m: FileMeta)
    ensures forall i :: 2 <= i < 10 ==> PlainField(Fields(m)[i])
  {
    PrintIsToken(m.logicalSize, 10);
    PrintIsToken(m.compressedSize, 10);
    PrintIsToken(m.chunkSize, 10);
    PrintIsToken(m.nChunks, 10);
    PrintSignedIsToken(m.atime);
    PrintSignedIsToken(m.mtime);
    PrintSignedIsToken(m.ctime);
    PrintIsToken(m.mode, 8);
    PrintedIsNoKey(m.logicalSize, 10);
    PrintedIsNoKey(m.compressedSize, 10);
    PrintedIsNoKey(m.chunkSize, 10);
    PrintedIsNoKey(m.nChunks, 10);
    SignedIsNoKey(m.atime);
    SignedIsNoKey(m.mtime);
    SignedIsNoKey(m.ctime);
    PrintedIsNoKey(m.mode, 8);
    KeysAreTokens();
    hide Print, PrintSigned, IsToken, IsKey;
  }

  // ---------------------------------------------------------------- any path, told from its words

  lemma {:induction false} TokensJoin(a: string, rest: string)
    ensures Tokens(a + ("\n" + rest)) == Tokens(a) + Tokens(rest)
    decreases |a|
  {
    var all := a + ("\n" + rest);
    if a == "" {
      assert all == "\n" + rest && all[1..] == rest;
    } else if IsSpace(a[0]) {
      assert all[1..] == a[1..] + ("\n" + rest);
      TokensJoin(a[1..], rest);
    } else {
      WordSplits(a, rest);
      TokensJoin(a[|FirstWord(a)|..], rest);
      hide FirstWord, IsToken, IsSpace;
      assert all[0] == a[0];
    }
  }

  lemma WordSplits(a: string, rest: string)
    ensures var all, w := a + ("\n" + rest), FirstWord(a);
            FirstWord(all) == w && all[|w|..] == a[|w|..] + ("\n" + rest)
  {
    var w := FirstWord(a);
    hide FirstWord, IsSpace;
    SplitAt(a, |w|, "\n" + rest);
    assert IsSpace('\n') by {
      NewlineIsSpace();
    }
    FirstWordOf(w, a[|w|..] + ("\n" + rest));
  }

  lemma NewlineIsSpace()
    ensures IsSpace('\n')
  {
  }

  lemma SplitAt(a: string, n: nat, b: string)
    requires n <= |a|
    ensures a + b == a[..n] + (a[n..] + b) && (a + b)[n..] == a[n..] + b
  {
  }

  /** The tokens of the lines behind the path. */
  function Numbers(m: FileMeta): seq<string>
  {
    Tokens(FieldsText(Fields(m)[2..]))
  }

  /** The tokens from the key of the path on. */
  function PathTokens(ts: seq<string>): seq<string>
  {
    ["logical_path"] + ts
  }

  /** The token stream of a saved record, whatever the words of its path. */
  lemma SavedTokens(m: FileMeta)
    requires IsToken(m.pathId)
    ensures Tokens(SaveText(m)) ==
            ["path_id", m.pathId] + PathTokens(Tokens(m.logicalPath) + Numbers(m))
  {
    var rest := FieldsText(Fields(m)[2..]);
    assert Fields(m)[0] == ("path_id", m.pathId);
    HeadField(Fields(m));
    SecondField(m);
    KeysAreTokens();
    hide Fields, FieldsText, FieldText, Tokens, IsToken;
    TokensOfField(("path_id", m.pathId), FieldsText(Fields(m)[1..]));
    TokensAfter("logical_path", " ", m.logicalPath + ("\n" + rest));
    TokensJoin(m.logicalPath, rest);
  }

  /** Tokens in front, an even number of them, are applied first. */
  lemma {:induction false} LoadJoin(a: seq<string>, b: seq<string>, m: FileMeta)
    requires |a| % 2 == 0
    ensures LoadTokens(a + b, m) ==
            match LoadTokens(a, m) case None => None case Some(q) => LoadTokens(b, q)
  {
    if a == [] {
      assert a + b == b;
    } else {
      assert (a + b)[2..] == a[2..] + b;
      hide Apply;
      match Apply(m, a[0], a[1])
      case None =>
      case Some(m') => LoadJoin(a[2..], b, m');
    }
  }

  /**
   The record that the saved text of `m` loads as. The words of the path behind the first are read as keys and values. An
   odd number of words leaves the lines behind them in step, so these restore every size and time; an even number puts
   them out of step, and no number on them is loaded.
   */
  function NamedRecord(m: FileMeta, start: FileMeta): Option<FileMeta>
  {
    var ws := Tokens(m.logicalPath);
    if ws == [] then Some(start.(pathId := m.pathId, logicalPath := "logical_size"))
    else
      var base := start.(pathId := m.pathId, logicalPath := ws[0]);
      if |ws| % 2 == 0 then LoadTokens(ws[1..] + ["logical_size"], base)
      else
        match LoadTokens(ws[1..], base)
        case None => None
        case Some(q) => Some(m.(pathId := q.pathId, logicalPath := q.logicalPath))
  }

  /** For any path at all, this is what loading a saved record gives. */
  lemma SavedNameLoads(m: FileMeta, start: FileMeta)
    requires Bounded(m) && IsToken(m.pathId)
    ensures LoadText(SaveText(m), start) == NamedRecord(m, start)
  {
    var ws := Tokens(m.logicalPath);
    var base := start.(pathId := m.pathId);
    hide *;
    PathComesNext(m, start);
    if |ws| % 2 == 1 {
      OddWords(m, ws, base);
      OddName(m, start);
    } else if ws == [] {
      assert [] + Numbers(m) == Numbers(m);
      NoWords(m, base);
      NoName(m, start);
    } else {
      EvenWords(m, ws, base);
      EvenName(m, start);
    }
  }

  lemma PathComesNext(m: FileMeta, start: FileMeta)
    requires IsToken(m.pathId)
    ensures LoadText(SaveText(m), start) ==
            LoadTokens(PathTokens(Tokens(m.logicalPath) + Numbers(m)), start.(pathId := m.pathId))
  {
    hide Tokens, SaveText, IsToken, FieldsText, Fields, LoadTokens, PathTokens;
    SavedTokens(m);
    LoadId(PathTokens(Tokens(m.logicalPath) + Numbers(m)), m.pathId, start);
  }

  lemma NoName(m: FileMeta, start: FileMeta)
    requires Tokens(m.logicalPath) == []
    ensures NamedRecord(m, start) == Some(start.(pathId := m.pathId, logicalPath := "logical_size"))
  {
    hide Tokens;
  }

  lemma OddName(m: FileMeta, start: FileMeta)
    requires |Tokens(m.logicalPath)| % 2 == 1
    ensures var ws := Tokens(m.logicalPath);
            NamedRecord(m, start) ==
            match LoadTokens(ws[1..], start.(pathId := m.pathId, logicalPath := ws[0]))
            case None => None
            case Some(q) => Some(m.(pathId := q.pathId, logicalPath := q.logicalPath))
  {
    hide Tokens, LoadTokens;
  }

  lemma EvenName(m: FileMeta, start: FileMeta)
    requires |Tokens(m.logicalPath)| % 2 == 0 && Tokens(m.logicalPath) != []
    ensures var ws := Tokens(m.logicalPath);
            NamedRecord(m, start) ==
            LoadTokens(ws[1..] + ["logical_size"], start.(pathId := m.pathId, logicalPath := ws[0]))
  {
    hide Tokens, LoadTokens;
  }

  lemma LoadId(ts: seq<string>, id: string, start: FileMeta)
    ensures LoadTokens(["path_id", id] + ts, start) == LoadTokens(ts, start.(pathId := id))
  {
    PathIdPair(start, id);
    hide Apply, LoadTokens;
    var all := ["path_id", id] + ts;
    assert all[0] == "path_id" && all[1] == id && all[2..] == ts;
    LoadPair(all, start, start.(pathId := id));
  }

  lemma FirstApart<T>(a: seq<T>, b: seq<T>)
    requires a != []
    ensures a + b == [a[0]] + (a[1..] + b)
  {
  }

  lemma OneOver<T>(a: seq<T>, x: T, y: T, b: seq<T>)
    ensures a + ([x, y] + b) == (a + [x]) + ([y] + b)
  {
  }

  lemma OddWords(m: FileMeta, ws: seq<string>, base: FileMeta)
    requires Bounded(m) && |ws| % 2 == 1
    ensures LoadTokens(PathTokens(ws + Numbers(m)), base) ==
            match LoadTokens(ws[1..], base.(logicalPath := ws[0]))
            case None => None
            case Some(q) => Some(m.(pathId := q.pathId, logicalPath := q.logicalPath))
  {
    var more, q := Numbers(m), base.(logicalPath := ws[0]);
    hide *;
    FirstApart(ws, more);
    LoadPath(ws[0], ws[1..] + more, base);
    LoadJoin(ws[1..], more, q);
    var r := LoadTokens(ws[1..], q);
    if r.Some? {
      NumbersLoad(m, r.value);
    }
  }

  lemma LoadPath(w: string, ts: seq<string>, base: FileMeta)
    ensures LoadTokens(PathTokens([w] + ts), base) == LoadTokens(ts, base.(logicalPath := w))
  {
    PathPair(base, w);
    hide Apply, LoadTokens;
    var all := PathTokens([w] + ts);
    assert all[0] == "logical_path" && all[1] == w && all[2..] == ts;
    LoadPair(all, base, base.(logicalPath := w));
  }

  /** In step, the lines behind the path restore every size and time. */
  lemma NumbersLoad(m: FileMeta, q: FileMeta)
    requires Bounded(m)
    ensures LoadTokens(Numbers(m), q) ==
            Some(m.(pathId := q.pathId, logicalPath := q.logicalPath))
  {
    var m' := m.(pathId := q.pathId, logicalPath := q.logicalPath);
    SameFields(m, q.pathId, q.logicalPath);
    FromTheSize(m', q);
    hide Fields, LoadTokens, Tokens, FieldsText, Bounded, Mixed, LoadFields;
    LoadTokensFields(Fields(m)[2..], q);
    LoadsFrom(m', q, 2);
  }

  /** The lines behind the path are tokens, and know nothing of id and path. */
  lemma SameFields(m: FileMeta, id: string, p: string)
    ensures Fields(m.(pathId := id, logicalPath := p))[2..] == Fields(m)[2..]
    ensures forall i :: 0 <= i < |Fields(m)[2..]| ==> TokenField(Fields(m)[2..][i])
    ensures Bounded(m) ==> Bounded(m.(pathId := id, logicalPath := p))
  {
    NumberFields(m);
    hide Print, PrintSigned, IsToken, IsKey;
    forall i | 0 <= i < |Fields(m)[2..]| ensures TokenField(Fields(m)[2..][i]) {
      assert PlainField(Fields(m)[i + 2]);
    }
  }

  lemma FromTheSize(m: FileMeta, q: FileMeta)
    requires m.pathId == q.pathId && m.logicalPath == q.logicalPath
    ensures Mixed(m, q, 2) == q
  {
  }

  lemma NoWords(m: FileMeta, base: FileMeta)
    ensures LoadTokens(PathTokens(Numbers(m)), base) == Some(base.(logicalPath := "logical_size"))
  {
    var size, more := Print(m.logicalSize, 10), Tokens(FieldsText(Fields(m)[3..]));
    hide *;
    SizeFirst(m);
    FirstApart(["logical_size", size], more);
    assert ["logical_size", size][1..] == [size];
    LoadPath("logical_size", [size] + more, base);
    OutOfStep(m, base.(logicalPath := "logical_size"));
  }

  lemma EvenWords(m: FileMeta, ws: seq<string>, base: FileMeta)
    requires |ws| % 2 == 0 && ws != []
    ensures LoadTokens(PathTokens(ws + Numbers(m)), base) ==
            LoadTokens(ws[1..] + ["logical_size"], base.(logicalPath := ws[0]))
  {
    var size, more := Print(m.logicalSize, 10), Tokens(FieldsText(Fields(m)[3..]));
    hide *;
    SizeFirst(m);
    var front, q := ws[1..] + ["logical_size"], base.(logicalPath := ws[0]);
    FirstApart(ws, ["logical_size", size] + more);
    OneOver(ws[1..], "logical_size", size, more);
    LoadPath(ws[0], front + ([size] + more), base);
    LoadJoin(front, [size] + more, q);
    var r := LoadTokens(front, q);
    if r.Some? {
      OutOfStep(m, r.value);
    }
  }

  lemma SizeFirst(m: FileMeta)
    ensures Numbers(m) ==
            ["logical_size", Print(m.logicalSize, 10)] + Tokens(FieldsText(Fields(m)[3..]))
  {
    NumberFields(m);
    var fs := Fields(m)[2..];
    assert PlainField(Fields(m)[2]) && fs[0] == ("logical_size", Print(m.logicalSize, 10)) && fs[1..] == Fields(m)[3..];
    hide Tokens, Fields, Print, IsToken, IsKey;
    TokensOfField(fs[0], FieldsText(fs[1..]));
  }

  /** Out of step by one, the lines behind the path load nothing. */
  lemma OutOfStep(m: FileMeta, q: FileMeta)
    ensures LoadTokens([Print(m.logicalSize, 10)] + Tokens(FieldsText(Fields(m)[3..])), q) == Some(q)
  {
    NumberFields(m);
    assert PlainField(Fields(m)[2]);
    assert forall i :: 0 <= i < |Fields(m)[3..]| ==> Fields(m)[3..][i] == Fields(m)[i + 3];
    hide Tokens, FieldsText, Print, IsToken, IsKey, LoadTokens;
    ShiftedFields(Print(m.logicalSize, 10), Fields(m)[3..], q);
  }

  /** No word that is read as a key is one. */
  predicate Keyless(ws: seq<string>)
  {
    forall i :: 0 <= i < |ws| && i % 2 == 1 ==> !IsKey(ws[i])
  }

  lemma {:induction false} NoKeysNoChange(ts: seq<string>, m: FileMeta)
    requires forall i :: 0 <= i < |ts| && i % 2 == 0 ==> !IsKey(ts[i])
    ensures LoadTokens(ts, m) == Some(m)
  {
    hide IsKey, Apply;
    if |ts| >= 2 {
      NoKeyNoChange(m, ts[0], ts[1]);
      NoKeysNoChange(ts[2..], m);
    }
  }

  /** Where no word is taken for a key, only the parity of their number matters. */
  lemma KeylessLoads(m: FileMeta, start: FileMeta)
    requires Keyless(Tokens(m.logicalPath)) && Tokens(m.logicalPath) != []
    ensures var ws := Tokens(m.logicalPath);
            NamedRecord(m, start) ==
            Some(if |ws| % 2 == 1 then m.(logicalPath := ws[0])
                 else start.(pathId := m.pathId, logicalPath := ws[0]))
  {
    var ws := Tokens(m.logicalPath);
    hide Tokens, IsKey;
    var base := start.(pathId := m.pathId, logicalPath := ws[0]);
    NoKeysNoChange(ws[1..], base);
    NoKeysNoChange(ws[1..] + (if |ws| % 2 == 0 then ["logical_size"] else []), base);
  }

  lemma {:induction false} OneToken(w: string)
    requires IsToken(w)
    ensures Tokens(w) == [w]
  {
    FirstWordOf(w, "");
    assert w + "" == w && w[|w|..] == "";
  }

  lemma TwoTokens(a: string, b: string)
    requires IsToken(a) && IsToken(b)
    ensures Tokens(a + " " + b) == [a, b]
  {
    OneToken(b);
    hide Tokens, IsToken;
    TokensAfter(a, " ", b);
    assert a + " " + b == a + (" " + b);
  }

  /**
   The record of a path with one space, whose second word is no key, loads without an error: but only the id and the
   first word are there, and every size and time is that of an empty record.
   */
  lemma SpacedRecord(m: FileMeta, a: string, b: string)
    requires Bounded(m) && IsToken(m.pathId) && IsToken(a) && IsToken(b) && !IsKey(b) && m.logicalPath == a + " " + b
    ensures LoadText(SaveText(m), DEFAULT_META) == Some(DEFAULT_META.(pathId := m.pathId, logicalPath := a))
  {
    TwoTokens(a, b);
    hide IsKey, IsToken, Tokens, NamedRecord, LoadText, SaveText, Bounded;
    KeylessLoads(m, DEFAULT_META);
    SavedNameLoads(m, DEFAULT_META);
  }

  lemma PathPair(m: FileMeta, val: string)
    ensures Apply(m, "logical_path", val) == Some(m.(logicalPath := val))
  {
  }

  // ---------------------------------------------------------------- the index file

  function IndexLine(e: (string, string)): string
  {
    e.0 + "\t" + e.1
  }

  function IndexLines(order: seq<(string, string)>): (ls: seq<string>)
    ensures |ls| == |order|
  {
    seq(|order|, i requires 0 <= i < |order| => IndexLine(order[i]))
  }

  /** The position of the first tab, or the length. */
  function FindTab(s: string): (n: nat)
    ensures n <= |s| && '\t' !in s[..n] && (n < |s| ==> s[n] == '\t')
  {
    if s == "" || s[0] == '\t' then 0
    else
      var n := 1 + FindTab(s[1..]);
      assert s[..n] == [s[0]] + s[1..][..n - 1];
      n
  }

  function LoadLine(index: map<string, string>, line: string): map<string, string>
  {
    var sep := FindTab(line);
    if sep == |line| then index else index[line[..sep] := line[sep + 1..]]
  }

  function LoadLines(ls: seq<string>): map<string, string>
  {
    if ls == [] then map[] else LoadLine(LoadLines(ls[..|ls| - 1]), ls[|ls| - 1])
  }

  method LoadIndex(text: string) returns (index: map<string, string>)
    ensures index == LoadLines(Listing.Lines(text))
  {
    index := map[];
    var ls := Listing.Lines(text);
    var i := 0;
    while i < |ls|
      invariant 0 <= i <= |ls| && index == LoadLines(ls[..i])
    {
      assert ls[..i + 1][..i] == ls[..i];
      var sep := FindTab(ls[i]);
      if sep < |ls[i]| {
        index := index[ls[i][..sep] := ls[i][sep + 1..]];
      }
      i := i + 1;
    }
    assert ls[..i] == ls;
  }

  /** The map that a sequence of entries spells out. */
  function MapOf(order: seq<(string, string)>): map<string, string>
  {
    if order == [] then map[] else MapOf(order[..|order| - 1])[order[|order| - 1].0 := order[|order| - 1].1]
  }

  /** The file holds exactly the entries of the map, one to a line. */
  ghost predicate IndexFile(text: string, index: map<string, string>)
  {
    exists order :: text == Listing.Written(IndexLines(order)) && MapOf(order) == index && DistinctKeys(order)
  }

  /** The entries of the unordered map, one to a line, in the order in which it is walked. */
  method SaveIndex(index: map<string, string>) returns (text: string, order: seq<(string, string)>)
    ensures text == Listing.Written(IndexLines(order)) && MapOf(order) == index && DistinctKeys(order)
  {
    text, order := "", [];
    var todo := index.Keys;
    while todo != {}
      invariant todo <= index.Keys && MapOf(order) == index - todo
      invariant text == Listing.Written(IndexLines(order)) && DistinctKeys(order)
      decreases |todo|
    {
      hide *;
      var path :| path in todo;
      WithoutLess(index, todo, path);
      EntryAppend(order, (path, index[path]));
      Listing.WrittenAppend(IndexLines(order), IndexLine((path, index[path])));
      LineText(text, path, index[path]);
      text := text + path + "\t" + index[path] + "\n";
      order := order + [(path, index[path])];
      todo := todo - {path};
    }
  }

  lemma WithoutLess(index: map<string, string>, ks: set<string>, k: string)
    requires k in ks && k in index
    ensures k !in (index - ks) && index - (ks - {k}) == (index - ks)[k := index[k]]
  {
  }

  lemma LineText(text: string, k: string, v: string)
    ensures text + k + "\t" + v + "\n" == text + (IndexLine((k, v)) + "\n")
  {
  }

  predicate DistinctKeys(order: seq<(string, string)>)
  {
    forall i, j :: 0 <= i < j < |order| ==> order[i].0 != order[j].0
  }

  lemma {:induction false} MapKeys(order: seq<(string, string)>)
    ensures forall k :: k in MapOf(order) <==> exists i :: 0 <= i < |order| && order[i].0 == k
  {
    if order != [] {
      MapKeys(order[..|order| - 1]);
    }
  }

  lemma EntryAppend(order: seq<(string, string)>, e: (string, string))
    requires e.0 !in MapOf(order) && DistinctKeys(order)
    ensures DistinctKeys(order + [e]) && MapOf(order + [e]) == MapOf(order)[e.0 := e.1]
    ensures IndexLines(order + [e]) == IndexLines(order) + [IndexLine(e)]
  {
    assert (order + [e])[..|order|] == order;
    MapKeys(order);
  }

  lemma {:induction false} EntryIn(order: seq<(string, string)>, i: nat)
    requires DistinctKeys(order) && i < |order|
    ensures order[i].0 in MapOf(order) && MapOf(order)[order[i].0] == order[i].1
  {
    if i < |order| - 1 {
      EntryIn(order[..|order| - 1], i);
    }
  }

  /** An entry that survives the format: no tab or newline in the path, no newline in the id. */
  predicate CleanEntry(e: (string, string))
  {
    '\t' !in e.0 && '\n' !in e.0 && '\n' !in e.1
  }

  lemma {:induction false} TabOf(k: string, v: string)
    requires '\t' !in k
    ensures FindTab(k + "\t" + v) == |k|
  {
    if k != "" {
      assert k[0] in k;
      assert (k + "\t" + v)[1..] == k[1..] + "\t" + v;
      TabOf(k[1..], v);
    } else {
      assert (k + "\t" + v)[0] == '\t';
    }
  }

  lemma {:induction false} LinesLoad(order: seq<(string, string)>)
    requires forall i :: 0 <= i < |order| ==> CleanEntry(order[i])
    ensures LoadLines(IndexLines(order)) == MapOf(order)
  {
    if order != [] {
      var init, e := order[..|order| - 1], order[|order| - 1];
      LinesLoad(init);
      assert IndexLines(order)[..|order| - 1] == IndexLines(init);
      TabOf(e.0, e.1);
      var line := IndexLine(e);
      assert IndexLines(order)[|order| - 1] == line && line[..|e.0|] == e.0 && line[|e.0| + 1..] == e.1;
    }
  }

  lemma {:induction false} LoadedClean(ls: seq<string>)
    requires forall l :: l in ls ==> '\n' !in l
    ensures forall k :: k in LoadLines(ls) ==> CleanEntry((k, LoadLines(ls)[k]))
  {
    if ls != [] {
      LoadedClean(ls[..|ls| - 1]);
      var l := ls[|ls| - 1];
      assert l in ls;
      var sep := FindTab(l);
      assert forall c :: c in l[..sep] ==> c in l;
      assert sep < |l| ==> forall c :: c in l[sep + 1..] ==> c in l;
    }
  }

  /** A line without a tab, as every line of an index of paths alone, is skipped. */
  lemma {:induction false} UntabbedLine(a: seq<string>, l: string, b: seq<string>)
    requires '\t' !in l
    ensures LoadLines(a + [l] + b) == LoadLines(a + b)
  {
    var ls := a + [l] + b;
    if b == [] {
      assert ls[..|ls| - 1] == a && a + b == a;
    } else {
      assert ls[..|ls| - 1] == a + [l] + b[..|b| - 1] && (a + b)[..|a + b| - 1] == a + b[..|b| - 1];
      UntabbedLine(a, l, b[..|b| - 1]);
    }
  }

  /** Any other is split at its first tab, and the last line for a path counts. */
  lemma TabbedLine(a: seq<string>, k: string, v: string)
    requires '\t' !in k
    ensures LoadLines(a + [k + "\t" + v]) == LoadLines(a)[k := v]
  {
    TabOf(k, v);
    var l := k + "\t" + v;
    assert (a + [l])[..|a|] == a && l[..|k|] == k && l[|k| + 1..] == v;
  }

  /**
   Loading the index that was saved, in whatever order, gives the same map exactly when no path has a tab or a
   newline and no id has a newline.
   */
  lemma IndexRoundTripIff(order: seq<(string, string)>)
    requires DistinctKeys(order)
    ensures LoadLines(Listing.Lines(Listing.Written(IndexLines(order)))) == MapOf(order) <==>
            forall i :: 0 <= i < |order| ==> CleanEntry(order[i])
  {
    var ls := IndexLines(order);
    var text := Listing.Written(ls);
    if forall i :: 0 <= i < |order| ==> CleanEntry(order[i]) {
      forall l | l in ls ensures '\n' !in l {
        var i :| 0 <= i < |order| && ls[i] == l;
        assert CleanEntry(order[i]);
      }
      Listing.LinesAppend(ls, "");
      assert text + "" == text && ls + Listing.Lines("") == ls;
      LinesLoad(order);
    } else {
      var i :| 0 <= i < |order| && !CleanEntry(order[i]);
      EntryIn(order, i);
      LoadedClean(Listing.Lines(text));
    }
  }

  /** Loading a saved index file gives the map back exactly when every entry is clean. */
  lemma IndexFileLoads(text: string, index: map<string, string>)
    requires IndexFile(text, index)
    ensures LoadLines(Listing.Lines(text)) == index <==> forall k :: k in index ==> CleanEntry((k, index[k]))
  {
    hide LoadLines, IndexLines, MapOf, CleanEntry;
    var order: seq<(string, string)> :|
      text == Listing.Written(IndexLines(order)) && MapOf(order) == index && DistinctKeys(order);
    IndexRoundTripIff(order);
    MapKeys(order);
    forall i: nat | i < |order| ensures order[i].0 in index && index[order[i].0] == order[i].1 {
      EntryIn(order, i);
    }
    forall k | k in index ensures exists i :: 0 <= i < |order| && order[i] == (k, index[k]) {
      var i :| 0 <= i < |order| && order[i].0 == k;
      assert order[i] == (k, index[k]);
    }
  }

  lemma TokensAreClean(p: string, id: string)
    requires IsToken(p) && IsToken(id)
    ensures CleanEntry((p, id))
  {
    forall c | c in p ensures c != '\t' && c != '\n' {
    }
  }
}
