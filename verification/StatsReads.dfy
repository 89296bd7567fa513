/** What a reader of the statistics path finds in the bytes it gets. */
module StatsReads {
  import opened Bytes
  import opened Numerals
  import opened ChunkedFile
  import opened ChunkedRead
  import opened Namespace
  import opened Mount
  import opened MountRuns
  import Stats
  import TextMeta

  /** Bytes as the characters they encode. */
  function Chars(b: seq<byte>): (s: string)
    ensures |s| == |b|
  {
    seq(|b|, i requires 0 <= i < |b| => b[i] as int as char)
  }

  /** How a printed text arrives at the reader. */
  function Received(s: string): (r: string)
    ensures |r| == |s|
  {
    Chars(Stats.AsBytes(s))
  }

  predicate Ascii(s: string)
  {
    forall i :: 0 <= i < |s| ==> s[i] < 128 as char
  }

  lemma ReceivedAscii(s: string)
    requires Ascii(s)
    ensures Received(s) == s
  {
  }

  lemma ReceivedJoin(a: string, b: string)
    ensures Received(a + b) == Received(a) + Received(b)
  {
  }

  lemma PrintIsAscii(n: nat)
    ensures Ascii(Print(n, 10))
  {
    PrintValue(n, 10);
    var s := Print(n, 10);
    assert forall i :: 0 <= i < |s| ==> Digit(s[i]) < 10;
  }

  /**
   The text tells these totals: three lines, whose words are the names of the totals, each with a numeral that parses
   to it, and the name of the ratio with what is printed for it.
   */
  ghost predicate Tells(text: string, logical: nat, compressed: nat, quotient: string)
  {
    exists a: string, b: string ::
      && ParseUnsigned(a, 10) == Some(logical) && ParseUnsigned(b, 10) == Some(compressed)
      && TextMeta.Tokens(text) == ["logical_bytes", a, "compressed_bytes", b, "ratio"] + TextMeta.Tokens(quotient)
      && text == "logical_bytes " + a + "\ncompressed_bytes " + b + "\nratio " + quotient + "\n"
  }

  lemma ReceivedText(a: string, b: string, quotient: string)
    requires Ascii(a) && Ascii(b)
    ensures Received("logical_bytes " + a + "\ncompressed_bytes " + b + "\nratio " + quotient + "\n") ==
            "logical_bytes " + a + "\ncompressed_bytes " + b + "\nratio " + Received(quotient) + "\n"
  {
    var head := "logical_bytes " + a + "\ncompressed_bytes " + b + "\nratio ";
    ReceivedAscii(head);
    ReceivedAscii("\n");
    hide Received;
    ReceivedJoin(head + quotient, "\n");
    ReceivedJoin(head, quotient);
  }

  lemma Reassociate(u: string, sp: string, a: string, nl: string, v: string, b: string, w: string, q: string)
    ensures (u + sp) + a + (nl + v + sp) + b + (nl + w + sp) + q + nl ==
            u + (sp + (a + (nl + (v + (sp + (b + (nl + (w + (sp + (q + (nl + "")))))))))))
  {
  }

  lemma Labels()
    ensures "logical_bytes " == "logical_bytes" + " " && "\ncompressed_bytes " == "\n" + "compressed_bytes" + " "
    ensures "\nratio " == "\n" + "ratio" + " "
  {
  }

  lemma PairTokens(u: string, sp: string, a: string, nl: string, rest: string)
    requires TextMeta.IsToken(u) && TextMeta.IsToken(a)
    requires |sp| == 1 && TextMeta.IsSpace(sp[0]) && |nl| == 1 && TextMeta.IsSpace(nl[0])
    ensures TextMeta.Tokens(u + (sp + (a + (nl + rest)))) == [u, a] + TextMeta.Tokens(rest)
  {
    hide *;
    TextMeta.TokensAfter(u, sp, a + (nl + rest));
    TextMeta.TokensAfter(a, nl, rest);
  }

  lemma LastTokens(w: string, sp: string, q: string)
    requires TextMeta.IsToken(w) && |sp| == 1 && TextMeta.IsSpace(sp[0])
    ensures TextMeta.Tokens(w + (sp + (q + ("\n" + "")))) == [w] + TextMeta.Tokens(q)
  {
    assert TextMeta.Tokens("") == [];
    hide *;
    TextMeta.TokensAfter(w, sp, q + ("\n" + ""));
    TextMeta.TokensJoin(q, "");
  }

  lemma FiveAndMore(u: string, a: string, v: string, b: string, w: string, ts: seq<string>)
    ensures [u, a] + ([v, b] + ([w] + ts)) == [u, a, v, b, w] + ts
  {
  }

  lemma TokensOfText(a: string, b: string, quotient: string)
    requires TextMeta.IsToken(a) && TextMeta.IsToken(b)
    ensures TextMeta.Tokens("logical_bytes " + a + "\ncompressed_bytes " + b + "\nratio " + quotient + "\n") ==
            ["logical_bytes", a, "compressed_bytes", b, "ratio"] + TextMeta.Tokens(quotient)
  {
    Labels();
    WordsAreTokens();
    SixTokens("logical_bytes", a, "compressed_bytes", b, "ratio", quotient, " ", "\n");
  }

  lemma SixTokens(u: string, a: string, v: string, b: string, w: string, q: string, sp: string, nl: string)
    requires TextMeta.IsToken(u) && TextMeta.IsToken(a) && TextMeta.IsToken(v) && TextMeta.IsToken(b)
    requires TextMeta.IsToken(w) && |sp| == 1 && TextMeta.IsSpace(sp[0]) && nl == "\n" && TextMeta.IsSpace(nl[0])
    ensures TextMeta.Tokens((u + sp) + a + (nl + v + sp) + b + (nl + w + sp) + q + nl) ==
            [u, a, v, b, w] + TextMeta.Tokens(q)
  {
    hide *;
    var third := w + (sp + (q + (nl + "")));
    PairTokens(u, sp, a, nl, v + (sp + (b + (nl + third))));
    PairTokens(v, sp, b, nl, third);
    LastTokens(w, sp, q);
    FiveAndMore(u, a, v, b, w, TextMeta.Tokens(q));
    Reassociate(u, sp, a, nl, v, b, w, q);
  }

  lemma WordsAreTokens()
    ensures TextMeta.IsToken("logical_bytes") && TextMeta.IsToken("compressed_bytes") && TextMeta.IsToken("ratio")
    ensures TextMeta.IsSpace(' ') && TextMeta.IsSpace('\n')
  {
  }

  lemma StatsTell(x: nat, y: nat, quotient: string)
    requires x < TWO_64 && y < TWO_64
    ensures Tells(Received(Stats.StatsText(Stats.Totals(x, y), quotient)), x, y, Received(quotient))
  {
    var a, b := Print(x, 10), Print(y, 10);
    UnsignedRoundTrip(x, 10);
    UnsignedRoundTrip(y, 10);
    PrintIsAscii(x);
    PrintIsAscii(y);
    TextMeta.PrintIsToken(x, 10);
    TextMeta.PrintIsToken(y, 10);
    hide Print, ParseUnsigned, TextMeta.Tokens, TextMeta.IsToken, Ascii, Received;
    ReceivedText(a, b, quotient);
    TokensOfText(a, b, Received(quotient));
  }

  /**
   After any run in which every new name is free of whitespace, every read of the statistics path is a slice of one
   text, and that tells, modulo 2^64, the sum of the logical sizes of all paths and the number of bytes in all chunk files,
   and for the ratio what is printed for the first over the second.
   */
  lemma StatsRead(L: Layout, ratio: (nat, nat) -> string, ops: seq<Op>, p: string)
    requires NamesRun(L, EMPTY_MOUNT, ops) && WidthsRun(L, EMPTY_MOUNT, ops)
    requires (forall i :: 0 <= i < |ops| ==> TokenOp(ops[i])) && p == "/.cfs_stats"
    ensures var t := RunOn(L, EMPTY_MOUNT, ops);
            var logical := Stats.Sum(t.index.Keys, Stats.LogicalOf(Loaded(t))) % TWO_64;
            var compressed := Stats.Sum(t.blobs.Keys, Stats.BlobSize(t.blobs)) % TWO_64;
            exists text: seq<byte> ::
              && Tells(Chars(text), logical, compressed, Received(ratio(logical, compressed)))
              && forall size: nat, off: nat :: ReadOn(L, ratio, t, p, size, off) == Data(Slice(text, off, size))
  {
    var t := RunOn(L, EMPTY_MOUNT, ops);
    var logical := Stats.Sum(t.index.Keys, Stats.LogicalOf(Loaded(t))) % TWO_64;
    var compressed := Stats.Sum(t.blobs.Keys, Stats.BlobSize(t.blobs)) % TWO_64;
    var text := Stats.AsBytes(Stats.StatsText(Stats.Totals(logical, compressed), ratio(logical, compressed)));
    hide RunOn, NamesRun, WidthsRun, TokenOp, Loaded, Tells, Chars, ReadFileOn, Slice, Stats.StatsText, Stats.AsBytes,
      Stats.Sum, Stats.LogicalOf, Stats.StatsOf;
    StatsAfterRun(L, ops);
    StatsTell(logical, compressed, ratio(logical, compressed));
    assert StatsBytes(ratio, t) == Some(text);
  }
}
