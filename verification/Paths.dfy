/**
 Path normalisation, stated on path components:
 - two loops, of which one collapses the slashes and the other drops the last ones;
 - their result is the join of the nonempty components;
 - and two paths have one result exactly when they have the same components.
 */
module Paths {

  // ---------------------------------------------------------------- components

  /** The longest prefix without a slash. */
  function Word(s: string): (w: string)
    ensures w <= s && '/' !in w && (|w| < |s| ==> s[|w|] == '/')
    ensures s != "" && s[0] != '/' ==> 0 < |w|
  {
    if s == "" || s[0] == '/' then "" else [s[0]] + Word(s[1..])
  }

  /** The nonempty pieces between slashes: what a path means. */
  function Components(s: string): (cs: seq<string>)
    ensures Plain(cs)
    decreases |s|
  {
    if s == "" then []
    else if s[0] == '/' then Components(s[1..])
    else [Word(s)] + Components(s[|Word(s)|..])
  }

  predicate Plain(cs: seq<string>)
  {
    forall i :: 0 <= i < |cs| ==> cs[i] != "" && '/' !in cs[i]
  }

  function JoinAll(cs: seq<string>): string
  {
    if cs == [] then "" else "/" + cs[0] + JoinAll(cs[1..])
  }

  /** The canonical spelling of a component list. */
  function Join(cs: seq<string>): string
  {
    if cs == [] then "/" else JoinAll(cs)
  }

  predicate IsNormal(s: string)
  {
    && s != "" && s[0] == '/'
    && (forall i :: 0 <= i < |s| - 1 ==> !(s[i] == '/' && s[i + 1] == '/'))
    && (|s| > 1 ==> s[|s| - 1] != '/')
  }

  // ---------------------------------------------------------------- normalize_path

  /** The character loop; `prev` is `prev_slash`. */
  function Collapse(s: string, prev: bool): string
  {
    if s == "" then ""
    else if s[0] == '/' then (if prev then "" else "/") + Collapse(s[1..], true)
    else [s[0]] + Collapse(s[1..], false)
  }

  function StripSlashes(s: string): string
  {
    if |s| > 1 && s[|s| - 1] == '/' then StripSlashes(s[..|s| - 1]) else s
  }

  function Rooted(p: string): string
  {
    if p == "" || p[0] != '/' then "/" + p else p
  }

  function Normalize(p: string): string
  {
    if p == "" then "/" else StripSlashes(Collapse(Rooted(p), false))
  }

  /** One turn of the character loop. */
  lemma CollapseStep(p: string, i: nat, prev: bool, out: string)
    requires i < |p|
    ensures var out' := if p[i] == '/' && prev then out else out + [p[i]];
            out + Collapse(p[i..], prev) == out' + Collapse(p[i + 1..], p[i] == '/')
  {
    assert p[i..][0] == p[i] && p[i..][1..] == p[i + 1..];
    var rest := Collapse(p[i + 1..], p[i] == '/');
    assert out + ([p[i]] + rest) == (out + [p[i]]) + rest;
    assert out + ("" + rest) == out + rest;
  }

  method NormalizePath(path: string) returns (r: string)
    ensures r == Normalize(path) == Join(Components(path)) && IsNormal(r)
  {
    NormalizeIsJoin(path);
    NormalizeIsNormal(path);
    hide Collapse, Components, Join, IsNormal;
    if path == "" {
      return "/";
    }
    var p := Rooted(path);
    CollapseRooted(p);
    var out: string := "";
    var prev := false;
    var i := 0;
    assert p[0..] == p && "" + Collapse(p, false) == Collapse(p, false);
    while i < |p|
      invariant 0 <= i <= |p|
      invariant Collapse(p, false) == out + Collapse(p[i..], prev)
    {
      CollapseStep(p, i, prev, out);
      var ch := p[i];
      if ch == '/' {
        if !prev {
          out := out + [ch];
        }
        prev := true;
      } else {
        out := out + [ch];
        prev := false;
      }
      i := i + 1;
    }
    assert out + Collapse(p[i..], prev) == out by {
      CollapseNothing(p[i..], prev);
    }
    while |out| > 1 && out[|out| - 1] == '/'
      invariant StripSlashes(out) == StripSlashes(Collapse(p, false))
      decreases |out|
    {
      out := out[..|out| - 1];
    }
    r := if out == "" then "/" else out;
  }

  lemma CollapseNothing(s: string, prev: bool)
    requires s == ""
    ensures Collapse(s, prev) == ""
  {
  }

  lemma CollapseRooted(p: string)
    requires p != "" && p[0] == '/'
    ensures Collapse(p, false) == "/" + Collapse(p[1..], true)
    ensures StripSlashes(Collapse(p, false)) != ""
  {
    StripNonempty(Collapse(p, false));
  }

  lemma {:induction false} StripNonempty(s: string)
    requires s != ""
    ensures StripSlashes(s) != ""
  {
    if |s| > 1 && s[|s| - 1] == '/' {
      StripNonempty(s[..|s| - 1]);
    }
  }

  predicate Trailing(s: string)
  {
    s == "" || s[|s| - 1] == '/'
  }

  /** In the middle of a word the loop copies it whole. */
  lemma {:induction false} CollapseWord(s: string)
    ensures Collapse(s, false) ==
            var w := Word(s);
            if |w| == |s| then w else w + "/" + Collapse(s[|w| + 1..], true)
  {
    if s != "" && s[0] != '/' {
      CollapseWord(s[1..]);
      var w := Word(s[1..]);
      assert Word(s) == [s[0]] + w;
      if |w| < |s[1..]| {
        assert s[1..][|w| + 1..] == s[|Word(s)| + 1..];
        PutInFront(s[0], w, Collapse(s[|Word(s)| + 1..], true));
      }
    } else if s != "" {
      assert Word(s) == "" && s[0 + 1..] == s[1..];
    }
  }

  lemma PutInFront(c: char, w: string, rest: string)
    ensures [c] + (w + "/" + rest) == ([c] + w) + "/" + rest
  {
  }

  lemma ComponentsHead(s: string)
    requires s != "" && s[0] != '/'
    ensures var w := Word(s);
            Components(s) == [w] + (if |w| == |s| then [] else Components(s[|w| + 1..]))
  {
    var w := Word(s);
    if |w| < |s| {
      assert s[|w|..][0] == '/' && s[|w|..][1..] == s[|w| + 1..];
    } else {
      assert s[|w|..] == "";
    }
  }

  ghost predicate Joins(s: string)
  {
    "/" + Collapse(s, true) == JoinAll(Components(s)) + (if Trailing(s) then "/" else "")
  }

  lemma LastWordJoins(s: string)
    requires s != "" && s[0] != '/' && Word(s) == s
    ensures Joins(s)
  {
    assert Collapse(s, true) == Collapse(s, false);
    CollapseWord(s);
    ComponentsHead(s);
    LastOf(s, s);
    hide Collapse, Components, Word, JoinAll, Trailing;
    JoinOne(s, []);
    JoinNone();
    assert [s] + [] == [s];
  }

  lemma CollapseWordMore(s: string, w: string, r: string)
    requires s != "" && s[0] != '/' && w == Word(s) && |w| < |s| && r == s[|w| + 1..]
    ensures Collapse(s, true) == w + "/" + Collapse(r, true)
    ensures JoinAll(Components(s)) == "/" + w + JoinAll(Components(r))
  {
    hide Word, Components;
    assert Collapse(s, true) == Collapse(s, false);
    CollapseWord(s);
    hide Collapse;
    ComponentsHead(s);
    JoinOne(w, Components(r));
  }

  lemma WordJoins(s: string, w: string, r: string)
    requires s != "" && s[0] != '/' && w == Word(s) && |w| < |s| && r == s[|w| + 1..]
    requires Joins(r)
    ensures Joins(s)
  {
    hide Word, Components, Collapse, JoinAll, Trailing;
    CollapseWordMore(s, w, r);
    LastOf(s, w);
    SameEnds(w, Collapse(r, true), JoinAll(Components(r)), if Trailing(r) then "/" else "");
  }

  lemma LastOf(s: string, w: string)
    requires w == Word(s) && s != "" && s[0] != '/'
    ensures Trailing(s) == if |w| == |s| then false else Trailing(s[|w| + 1..])
  {
    hide Word;
    if |w| == |s| {
      assert s[|s| - 1] in w;
    }
  }

  lemma SameEnds(w: string, x: string, j: string, t: string)
    requires "/" + x == j + t
    ensures "/" + (w + "/" + x) == ("/" + w + j) + t
  {
    assert "/" + (w + "/" + x) == "/" + w + ("/" + x);
    assert "/" + w + (j + t) == ("/" + w + j) + t;
  }

  /** Behind a slash, the loop yields the canonical spelling, and a slash if the input ends in one. */
  lemma {:induction false} CollapseJoins(s: string)
    ensures Joins(s)
    decreases |s|
  {
    if s == "" {
    } else if s[0] == '/' {
      CollapseJoins(s[1..]);
      assert "" + Collapse(s[1..], true) == Collapse(s[1..], true);
    } else {
      var w := Word(s);
      if |w| < |s| {
        CollapseJoins(s[|w| + 1..]);
        WordJoins(s, w, s[|w| + 1..]);
      } else {
        LastWordJoins(s);
      }
    }
  }

  lemma JoinNone()
    ensures JoinAll([]) == ""
  {
  }

  lemma JoinOne(w: string, cs: seq<string>)
    ensures JoinAll([w] + cs) == "/" + w + JoinAll(cs)
  {
    assert ([w] + cs)[1..] == cs;
  }

  lemma {:induction false} JoinAllEnds(cs: seq<string>)
    requires Plain(cs) && cs != []
    ensures |JoinAll(cs)| > 1 && JoinAll(cs)[|JoinAll(cs)| - 1] != '/'
  {
    var c := cs[0];
    assert '/' !in c && c[|c| - 1] in c;
    if |cs| > 1 {
      JoinAllEnds(cs[1..]);
    } else {
      assert cs[1..] == [];
    }
  }

  lemma {:induction false} NoComponentsTrailing(s: string)
    requires Components(s) == []
    ensures Trailing(s)
    decreases |s|
  {
    if s != "" && s[0] == '/' {
      NoComponentsTrailing(s[1..]);
    }
  }

  /** Normalising a path is spelling its components canonically. */
  lemma NormalizeIsJoin(p: string)
    ensures Normalize(p) == Join(Components(p))
  {
    if p != "" {
      var q := Rooted(p);
      CollapseRooted(q);
      CollapseJoins(q[1..]);
      var cs, tail := Components(p), q[1..];
      assert Components(tail) == cs by {
        assert p[0] != '/' ==> tail == p;
      }
      hide Collapse, Components, JoinAll;
      if cs == [] {
        NoComponentsTrailing(tail);
        JoinNone();
        assert StripSlashes("/") == "/";
      } else {
        JoinAllEnds(cs);
        StripOne(JoinAll(cs));
      }
    }
  }

  lemma StripOne(s: string)
    requires |s| > 1 && s[|s| - 1] != '/'
    ensures StripSlashes(s) == s && StripSlashes(s + "/") == s
    ensures s + "" == s
  {
    assert (s + "/")[..|s + "/"| - 1] == s;
  }

  // ---------------------------------------------------------------- canonical form

  lemma {:induction false} WordOfJoin(c: string, rest: string)
    requires '/' !in c && (rest == "" || rest[0] == '/')
    ensures Word(c + rest) == c
  {
    if c == "" {
      assert c + rest == rest;
    } else {
      assert c[0] in c;
      assert (c + rest)[1..] == c[1..] + rest;
      WordOfJoin(c[1..], rest);
    }
  }

  /** The components of a canonical spelling are the ones it was made of. */
  lemma {:induction false} ComponentsOfJoin(cs: seq<string>)
    requires Plain(cs)
    ensures Components(JoinAll(cs)) == cs && Components(Join(cs)) == cs
  {
    if cs == [] {
      assert "/"[1..] == "";
    } else {
      hide Components, Word;
      var c, rest := cs[0], JoinAll(cs[1..]);
      ComponentsOfJoin(cs[1..]);
      WordOfJoin(c, rest);
      ComponentsStep(JoinAll(cs), c, rest);
      assert [c] + cs[1..] == cs;
    }
  }

  lemma ComponentsStep(s: string, c: string, rest: string)
    requires c != "" && '/' !in c && s == "/" + c + rest && Word(c + rest) == c
    ensures Components(s) == [c] + Components(rest)
  {
    hide Word;
    assert s[1..] == c + rest && c[0] in c;
    assert (c + rest)[|c|..] == rest;
  }

  lemma {:induction false} JoinAllNormal(cs: seq<string>)
    requires Plain(cs) && cs != []
    ensures IsNormal(JoinAll(cs))
  {
    JoinAllEnds(cs);
    var c, rest := cs[0], JoinAll(cs[1..]);
    var s := JoinAll(cs);
    assert s == "/" + c + rest;
    if |cs| > 1 {
      JoinAllNormal(cs[1..]);
    }
    forall i | 0 <= i < |s| - 1 ensures !(s[i] == '/' && s[i + 1] == '/') {
      if i < |c| {
        assert s[i + 1] == c[i] && c[i] in c;
      } else if i == |c| {
        assert s[i] == c[i - 1] && c[i - 1] in c;
      } else {
        assert s[i] == rest[i - |c| - 1] && s[i + 1] == rest[i - |c|];
      }
    }
  }

  /** Leading slash, no double slash, no trailing slash except the root; normalising twice changes nothing. */
  lemma NormalizeIsNormal(p: string)
    ensures IsNormal(Normalize(p)) && Components(Normalize(p)) == Components(p)
    ensures Normalize(Normalize(p)) == Normalize(p)
  {
    NormalizeIsJoin(p);
    NormalizeIsJoin(Normalize(p));
    ComponentsOfJoin(Components(p));
    if Components(p) != [] {
      JoinAllNormal(Components(p));
    }
  }

  lemma {:induction false} CollapseNormal(s: string, prev: bool)
    requires forall i :: 0 <= i < |s| - 1 ==> !(s[i] == '/' && s[i + 1] == '/')
    requires prev && s != "" ==> s[0] != '/'
    ensures Collapse(s, prev) == s
  {
    if s != "" {
      forall i | 0 <= i < |s[1..]| - 1 ensures !(s[1..][i] == '/' && s[1..][i + 1] == '/') {
        assert !(s[i + 1] == '/' && s[i + 2] == '/');
      }
      assert |s| > 1 ==> !(s[0] == '/' && s[1] == '/');
      CollapseNormal(s[1..], s[0] == '/');
    }
  }

  /** The normalised paths are exactly the fixed points, so each component list has one normalised spelling. */
  lemma NormalIffFixed(s: string)
    ensures IsNormal(s) <==> Normalize(s) == s
  {
    if IsNormal(s) {
      CollapseNormal(s, false);
    } else {
      NormalizeIsNormal(s);
    }
  }

  lemma NormalizeUnique(p: string, q: string)
    ensures Normalize(p) == Normalize(q) <==> Components(p) == Components(q)
  {
    NormalizeIsJoin(p);
    NormalizeIsJoin(q);
    NormalizeIsNormal(p);
    NormalizeIsNormal(q);
  }
}
