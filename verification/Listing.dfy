/**
 Directory listings and the index file of logical paths:
 - which indexed paths a directory shows, and under what name, in terms of path components;
 - the listing, of the visible backing entries and the names of the indexed paths, each once;
 - the index file, one path to a line, and which sets of paths it gives back.
 */
module Listing {
  import opened Bytes
  import opened Paths

  // ---------------------------------------------------------------- direct children

  /** The name under which a directory shows a path below it, and whether it stands for a deeper path. */
  datatype Entry = Entry(name: string, isDir: bool)

  method PathIsDirectChild(parent: string, child: string) returns (r: Option<Entry>)
    ensures r == DirectChild(parent, child)
    ensures var a, b := Components(parent), Components(child);
            r == if ProperPrefix(a, b) then Some(Entry(b[|a|], |a| + 1 < |b|)) else None
  {
    DirectChildIs(parent, child);
    hide Components, ProperPrefix;
    var p := NormalizePath(parent);
    var c := NormalizePath(child);
    if p == c {
      return None;
    }
    var prefix := if p == "/" then "/" else p + "/";
    if !(prefix <= c) {
      return None;
    }
    var remain := c[|prefix|..];
    var name := Word(remain);
    if name == "" {
      return None;
    }
    r := Some(Entry(name, |name| < |remain|));
  }

  function DirPrefix(p: string): string
  {
    if p == "/" then "/" else p + "/"
  }

  /** The string computation of `path_is_direct_child`. */
  function DirectChild(parent: string, child: string): Option<Entry>
  {
    var p, c := Normalize(parent), Normalize(child);
    if p == c || !(DirPrefix(p) <= c) then None
    else
      var remain := c[|DirPrefix(p)|..];
      if Word(remain) == "" then None else Some(Entry(Word(remain), |Word(remain)| < |remain|))
  }

  predicate ProperPrefix(a: seq<string>, b: seq<string>)
  {
    |a| < |b| && a == b[..|a|]
  }

  lemma SameWord(a: string, b: string, s: string, t: string)
    requires '/' !in a && '/' !in b && (t == "" || t[0] == '/')
    requires a + "/" + s <= b + t
    ensures a == b
  {
    var u, v := a + "/" + s, b + t;
    var rest := "/" + s + v[|u|..];
    assert v == u + v[|u|..] && u + v[|u|..] == a + rest;
    WordOfJoin(a, rest);
    WordOfJoin(b, t);
  }

  /** On canonical spellings, being below a directory is a matter of components. */
  lemma {:induction false} PrefixIsComponents(a: seq<string>, b: seq<string>)
    requires Plain(a) && Plain(b)
    ensures JoinAll(a) + "/" <= JoinAll(b) <==> ProperPrefix(a, b)
  {
    if a == [] {
      JoinNone();
      if b != [] {
        assert JoinAll(b) == "" + "/" + (b[0] + JoinAll(b[1..]));
      }
    } else if b == [] {
    } else {
      PrefixIsComponents(a[1..], b[1..]);
      PrefixHeads(a, b);
      hide JoinAll;
      assert ProperPrefix(a, b) <==> a[0] == b[0] && ProperPrefix(a[1..], b[1..]);
    }
  }

  /** What is left of a path below a directory: the next component, and the rest. */
  lemma {:induction false} BelowDirectory(a: seq<string>, b: seq<string>)
    requires ProperPrefix(a, b)
    ensures JoinAll(b) == JoinAll(a) + "/" + (b[|a|] + JoinAll(b[|a| + 1..]))
  {
    if a == [] {
      JoinNone();
      assert JoinAll(b) == "" + "/" + (b[0] + JoinAll(b[1..]));
    } else {
      BelowDirectory(a[1..], b[1..]);
      assert b[1..][|a| - 1] == b[|a|] && b[1..][|a|..] == b[|a| + 1..];
      assert JoinAll(b) == "/" + a[0] + (JoinAll(a[1..]) + "/" + (b[|a|] + JoinAll(b[|a| + 1..])));
    }
  }

  lemma PrefixHeads(a: seq<string>, b: seq<string>)
    requires Plain(a) && Plain(b) && a != [] && b != []
    ensures JoinAll(a) + "/" <= JoinAll(b) <==> a[0] == b[0] && JoinAll(a[1..]) + "/" <= JoinAll(b[1..])
  {
    JoinHead(a[1..]);
    JoinHead(b[1..]);
    HeadsAgree(a[0], JoinAll(a[1..]), b[0], JoinAll(b[1..]));
    assert JoinAll(a) == "/" + a[0] + JoinAll(a[1..]) && JoinAll(b) == "/" + b[0] + JoinAll(b[1..]);
  }

  lemma HeadsAgree(a: string, x: string, b: string, y: string)
    requires '/' !in a && '/' !in b && (x == "" || x[0] == '/') && (y == "" || y[0] == '/')
    ensures ("/" + a + x) + "/" <= "/" + b + y <==> a == b && x + "/" <= y
  {
    var u, v := ("/" + a + x) + "/", "/" + b + y;
    assert u[1..] == a + (x + "/") && v[1..] == b + y;
    assert u <= v <==> u[1..] <= v[1..] by {
      assert u[0] == v[0] == '/';
      PrefixTail(u, v);
    }
    if u <= v {
      assert a + (x + "/") == a + "/" + (x + "/")[1..];
      SameWord(a, b, (x + "/")[1..], y);
    }
    if a == b {
      PrefixCancel(a, x + "/", y);
    }
  }

  lemma PrefixTail(u: string, v: string)
    requires u != "" && v != "" && u[0] == v[0]
    ensures u <= v <==> u[1..] <= v[1..]
  {
    assert u == [u[0]] + u[1..] && v == [v[0]] + v[1..];
    PrefixCancel([u[0]], u[1..], v[1..]);
  }

  lemma PrefixCancel(c: string, u: string, v: string)
    ensures c + u <= c + v <==> u <= v
  {
    if c + u <= c + v {
      assert u == (c + u)[|c|..] && v == (c + v)[|c|..];
      assert v[..|u|] == (c + v)[..|c + u|][|c|..];
    }
    if u <= v {
      assert c + v == (c + u) + v[|u|..];
    }
  }

  lemma JoinHead(cs: seq<string>)
    ensures JoinAll(cs) == "" || JoinAll(cs)[0] == '/'
  {
  }

  /**
   A path is shown in a directory exactly when the directory's components are a proper prefix of its own; the name
   is the next component, and a longer rest makes it a directory.
   */
  lemma DirectChildIs(parent: string, child: string)
    ensures var a, b := Components(parent), Components(child);
            DirectChild(parent, child) == if ProperPrefix(a, b) then Some(Entry(b[|a|], |a| + 1 < |b|)) else None
  {
    var a, b := Components(parent), Components(child);
    NormalizeIsJoin(parent);
    NormalizeIsJoin(child);
    PrefixIsComponents(a, b);
    JoinIsRoot(a);
    JoinIsRoot(b);
    NormalizeUnique(parent, child);
    hide Normalize, Components, Word;
    assert DirPrefix(Join(a)) == JoinAll(a) + "/";
    if ProperPrefix(a, b) {
      var next, rest := b[|a|], JoinAll(b[|a| + 1..]);
      BelowDirectory(a, b);
      assert Join(b)[|DirPrefix(Join(a))|..] == next + rest;
      JoinHead(b[|a| + 1..]);
      WordOfJoin(next, rest);
      JoinIsRoot(b[|a| + 1..]);
    }
  }

  lemma JoinIsRoot(cs: seq<string>)
    requires Plain(cs)
    ensures cs == [] <==> Join(cs) == "/"
    ensures cs == [] <==> JoinAll(cs) == ""
  {
    if cs != [] {
      assert |JoinAll(cs)| >= 1 + |cs[0]|;
    }
  }

  // ---------------------------------------------------------------- readdir

  const HIDDEN: set<string> := {".", "..", ".crunchfs"}

  /** The backing entries a listing shows. */
  function Shown(backing: seq<string>): seq<string>
  {
    if backing == [] then []
    else
      var rest := Shown(backing[..|backing| - 1]);
      var name := backing[|backing| - 1];
      if name in HIDDEN then rest else rest + [name]
  }

  /** The first components, below the directory, of the indexed paths. */
  ghost function ChildNames(dir: string, paths: set<string>): set<string>
  {
    set p | p in paths && ProperPrefix(Components(dir), Components(p)) :: Components(p)[|Components(dir)|]
  }

  predicate Distinct(s: seq<string>)
  {
    forall i, j :: 0 <= i < j < |s| ==> s[i] != s[j]
  }

  ghost function Elements(s: seq<string>): set<string>
  {
    set x | x in s
  }

  lemma DistinctAppend(s: seq<string>, x: string)
    requires Distinct(s) && x !in s
    ensures Distinct(s + [x]) && Elements(s + [x]) == Elements(s) + {x}
  {
  }

  lemma {:induction false} ShownDistinct(backing: seq<string>)
    requires Distinct(backing)
    ensures Distinct(Shown(backing)) && Elements(Shown(backing)) == Elements(backing) - HIDDEN
  {
    if backing != [] {
      var init, name := backing[..|backing| - 1], backing[|backing| - 1];
      ShownDistinct(init);
      assert backing == init + [name] && name !in init;
      assert Elements(backing) == Elements(init) + {name};
      assert name !in Shown(init) by {
        assert name in Shown(init) ==> name in Elements(Shown(init));
      }
      DistinctAppend(Shown(init), name);
    }
  }

  lemma ShownOne(x: string)
    ensures Shown([x]) == if x == "." || x == ".." || x == ".crunchfs" then [] else [x]
  {
    assert [x][..0] == [] && [x][|[x]| - 1] == x;
    assert x == "." || x == ".." || x == ".crunchfs" <==> x in HIDDEN;
  }

  /** The backing entries are shown in their order, but for three. */
  lemma {:induction false} ShownKeepsOrder(a: seq<string>, b: seq<string>)
    ensures Shown(a + b) == Shown(a) + Shown(b)
    ensures forall x :: Shown([x]) == if x == "." || x == ".." || x == ".crunchfs" then [] else [x]
  {
    forall x ensures Shown([x]) == if x == "." || x == ".." || x == ".crunchfs" then [] else [x] {
      ShownOne(x);
    }
    hide HIDDEN;
    if b == [] {
      assert a + b == a;
    } else {
      assert (a + b)[..|a + b| - 1] == a + b[..|b| - 1];
      ShownKeepsOrder(a, b[..|b| - 1]);
    }
  }

  /** The loop over the backing directory. */
  method ListBacking(backing: seq<string>) returns (listed: seq<string>)
    ensures listed == Shown(backing)
  {
    listed := [];
    var i := 0;
    while i < |backing|
      invariant 0 <= i <= |backing| && listed == Shown(backing[..i])
    {
      assert backing[..i + 1][..i] == backing[..i];
      if backing[i] !in HIDDEN {
        listed := listed + [backing[i]];
      }
      i := i + 1;
    }
    assert backing[..i] == backing;
  }

  /** Some indexed path gives the directory this name, with this type. */
  ghost predicate Typed(dir: string, index: set<string>, name: string, isDir: bool)
  {
    exists p :: p in index && DirectChild(dir, p) == Some(Entry(name, isDir))
  }

  function ChildName(dir: string, p: string): set<string>
  {
    if DirectChild(dir, p).Some? then {DirectChild(dir, p).value.name} else {}
  }

  ghost predicate AllTyped(dir: string, index: set<string>, types: map<string, bool>)
  {
    forall name :: name in types ==> Typed(dir, index, name, types[name])
  }

  /** One indexed path: its name is listed unless it already is. */
  method ListOne(dir: string, ghost index: set<string>, p: string, listed: seq<string>, types: map<string, bool>)
    returns (listed': seq<string>, types': map<string, bool>)
    requires p in index && Distinct(listed) && AllTyped(dir, index, types)
    ensures listed <= listed' && Distinct(listed') && AllTyped(dir, index, types')
    ensures Elements(listed') == Elements(listed) + ChildName(dir, p)
    ensures types'.Keys == types.Keys + (ChildName(dir, p) - Elements(listed))
  {
    hide DirectChild, Distinct, Typed;
    listed', types' := listed, types;
    var e := PathIsDirectChild(dir, p);
    if e.Some? {
      var name, isDir := e.value.name, e.value.isDir;
      assert name in listed <==> name in Elements(listed);
      if name !in listed {
        IsTyped(dir, index, p);
        DistinctAppend(listed, name);
        listed', types' := listed + [name], types[name := isDir];
      }
    }
  }

  /** The loop over the index, behind the names already listed. */
  method ListLogical(dir: string, index: set<string>, shown: seq<string>)
    returns (listed: seq<string>, types: map<string, bool>)
    requires Distinct(shown)
    ensures shown <= listed && Distinct(listed)
    ensures Elements(listed) == Elements(shown) + ChildNames(dir, index)
    ensures types.Keys == ChildNames(dir, index) - Elements(shown)
    ensures AllTyped(dir, index, types)
  {
    hide ChildNames, ChildName, Distinct, Elements;
    listed, types := shown, map[];
    var todo := index;
    ghost var seen := {};
    NoChildNames(dir, index - todo);
    assert AllTyped(dir, index, types);
    hide AllTyped;
    while todo != {}
      invariant todo <= index && seen == ChildNames(dir, index - todo)
      invariant shown <= listed && Distinct(listed) && AllTyped(dir, index, types)
      invariant Elements(listed) == Elements(shown) + seen
      invariant types.Keys == seen - Elements(shown)
      decreases |todo|
    {
      var p :| p in todo;
      ChildNamesStep(dir, index, todo, p);
      SetStep(Elements(shown), seen, ChildName(dir, p));
      listed, types := ListOne(dir, index, p, listed, types);
      seen := seen + ChildName(dir, p);
      todo := todo - {p};
    }
    assert index - todo == index;
  }

  lemma SetStep<T>(shown: set<T>, seen: set<T>, more: set<T>)
    ensures (shown + seen) + more == shown + (seen + more)
    ensures (seen - shown) + (more - (shown + seen)) == (seen + more) - shown
  {
  }

  lemma NoChildNames(dir: string, paths: set<string>)
    requires paths == {}
    ensures ChildNames(dir, paths) == {}
  {
  }

  lemma IsTyped(dir: string, index: set<string>, p: string)
    requires p in index
    ensures DirectChild(dir, p).Some? ==>
              Typed(dir, index, DirectChild(dir, p).value.name, DirectChild(dir, p).value.isDir)
  {
  }

  /**
   `cfs_readdir` with a filler that accepts every entry. After "." and ".." come the backing entries, then the
   names that indexed paths give the directory, each name once.
   */
  method Readdir(dir: string, backing: seq<string>, index: set<string>)
    returns (out: seq<string>, types: map<string, bool>)
    requires Distinct(backing)
    ensures [".", ".."] + Shown(backing) <= out
    ensures Distinct(out[2..])
    ensures Elements(out[2..]) == (Elements(backing) - {".", "..", ".crunchfs"}) + ChildNames(dir, index)
    ensures types.Keys == ChildNames(dir, index) - Elements(Shown(backing))
    ensures AllTyped(dir, index, types)
  {
    hide ChildNames, Shown, Elements, Typed;
    var shown := ListBacking(backing);
    ShownDistinct(backing);
    var listed;
    listed, types := ListLogical(dir, index, shown);
    out := [".", ".."] + listed;
    assert out[2..] == listed;
  }

  lemma ChildNamesStep(dir: string, index: set<string>, todo: set<string>, p: string)
    requires p in todo && todo <= index
    ensures ChildNames(dir, index - (todo - {p})) ==
            ChildNames(dir, index - todo) + ChildName(dir, p)
  {
    DirectChildIs(dir, p);
    hide DirectChild, Components;
    assert index - (todo - {p}) == (index - todo) + {p};
  }

  // ---------------------------------------------------------------- the index file

  /** `getline` until the end of the stream. */
  function Lines(text: string): (ls: seq<string>)
    ensures forall l :: l in ls ==> '\n' !in l
    decreases |text|
  {
    if text == "" then []
    else
      var l := Line(text);
      [l] + (if |l| == |text| then [] else Lines(text[|l| + 1..]))
  }

  function Line(text: string): (l: string)
    ensures l <= text && '\n' !in l && (|l| < |text| ==> text[|l|] == '\n')
  {
    if text == "" || text[0] == '\n' then "" else [text[0]] + Line(text[1..])
  }

  function Written(ls: seq<string>): string
  {
    if ls == [] then "" else Written(ls[..|ls| - 1]) + ls[|ls| - 1] + "\n"
  }

  lemma {:induction false} LineOf(l: string, rest: string)
    requires '\n' !in l
    ensures Line(l + "\n" + rest) == l
  {
    if l == "" {
      assert (l + "\n" + rest)[0] == '\n';
    } else {
      assert l[0] in l;
      assert (l + "\n" + rest)[1..] == l[1..] + "\n" + rest;
      LineOf(l[1..], rest);
    }
  }

  lemma LinesHead(l: string, rest: string)
    requires '\n' !in l
    ensures Lines(l + "\n" + rest) == [l] + Lines(rest)
  {
    LineOf(l, rest);
    assert (l + "\n" + rest)[|l| + 1..] == rest;
  }

  lemma {:induction false} LinesAppend(ls: seq<string>, rest: string)
    requires forall l :: l in ls ==> '\n' !in l
    ensures Lines(Written(ls) + rest) == ls + Lines(rest)
  {
    if ls == [] {
      assert Written(ls) + rest == rest;
    } else {
      var init, l := ls[..|ls| - 1], ls[|ls| - 1];
      LinesHead(l, rest);
      LinesAppend(init, l + "\n" + rest);
      hide Lines;
      Reassociate(Written(init), l, rest);
      LastOfLines(ls, Lines(rest));
    }
  }

  lemma Reassociate(a: string, l: string, rest: string)
    ensures (a + l + "\n") + rest == a + (l + "\n" + rest)
  {
  }

  lemma LastOfLines(ls: seq<string>, more: seq<string>)
    requires ls != []
    ensures ls[..|ls| - 1] + ([ls[|ls| - 1]] + more) == ls + more
  {
  }

  /** The set a list of lines stands for: every nonempty line, normalised. */
  ghost function IndexOf(ls: seq<string>): set<string>
  {
    set l | l in ls && l != "" :: Normalize(l)
  }

  lemma IndexAppend(ls: seq<string>, l: string)
    ensures IndexOf([]) == {}
    ensures IndexOf(ls + [l]) == if l == "" then IndexOf(ls) else IndexOf(ls) + {Normalize(l)}
  {
    hide Normalize;
  }

  method LoadIndex(text: string) returns (out: set<string>)
    ensures out == IndexOf(Lines(text))
  {
    hide *;
    out := {};
    var ls := Lines(text);
    var i := 0;
    IndexAppend([], "");
    assert ls[..0] == [];
    while i < |ls|
      invariant 0 <= i <= |ls| && out == IndexOf(ls[..i])
    {
      assert ls[..i + 1] == ls[..i] + [ls[i]];
      IndexAppend(ls[..i], ls[i]);
      if ls[i] != "" {
        var n := NormalizePath(ls[i]);
        out := out + {n};
      }
      i := i + 1;
    }
    assert ls[..i] == ls;
  }

  /** The entries, one to a line, in the order in which the set is walked. */
  method SaveIndex(entries: set<string>) returns (text: string, order: seq<string>)
    ensures text == Written(order) && Elements(order) == entries && Distinct(order)
  {
    text, order := "", [];
    var todo := entries;
    assert Elements(order) == entries - todo;
    hide Written, Elements, Distinct;
    while todo != {}
      invariant todo <= entries && text == Written(order)
      invariant Elements(order) == entries - todo && Distinct(order)
      decreases |todo|
    {
      var path :| path in todo;
      ElementsIs(order, path);
      DistinctAppend(order, path);
      WrittenAppend(order, path);
      text := text + path + "\n";
      order := order + [path];
      todo := todo - {path};
    }
  }

  lemma ElementsIs(s: seq<string>, x: string)
    ensures x in s <==> x in Elements(s)
  {
  }

  lemma WrittenAppend(ls: seq<string>, l: string)
    ensures Written(ls + [l]) == Written(ls) + l + "\n"
  {
    assert (ls + [l])[..|ls|] == ls;
  }

  lemma {:induction false} NormalizeNoNewline(l: string)
    requires '\n' !in l
    ensures '\n' !in Normalize(l)
  {
    if l != "" {
      CollapseNoNewline(Rooted(l), false);
      StripPrefix(Collapse(Rooted(l), false));
    }
  }

  lemma {:induction false} CollapseNoNewline(s: string, prev: bool)
    requires '\n' !in s
    ensures '\n' !in Collapse(s, prev)
  {
    if s != "" {
      CollapseNoNewline(s[1..], s[0] == '/');
    }
  }

  lemma {:induction false} StripPrefix(s: string)
    ensures StripSlashes(s) <= s
  {
    if |s| > 1 && s[|s| - 1] == '/' {
      StripPrefix(s[..|s| - 1]);
    }
  }

  /**
   Loading what was saved, in whatever order it was written, gives the same set exactly when every entry is a
   normalised path without a newline.
   */
  lemma IndexRoundTripIff(order: seq<string>)
    ensures IndexOf(Lines(Written(order))) == Elements(order) <==>
            forall p :: p in order ==> IsNormal(p) && '\n' !in p
  {
    if forall p :: p in order ==> IsNormal(p) && '\n' !in p {
      LinesAppend(order, "");
      assert Written(order) + "" == Written(order) && order + Lines("") == order;
      forall p | p in order ensures Normalize(p) == p && p != "" {
        NormalIffFixed(p);
      }
    } else {
      var p :| p in order && !(IsNormal(p) && '\n' !in p);
      assert p in Elements(order);
      if p in IndexOf(Lines(Written(order))) {
        var l :| l in Lines(Written(order)) && l != "" && Normalize(l) == p;
        NormalizeIsNormal(l);
        NormalizeNoNewline(l);
      }
    }
  }
}
