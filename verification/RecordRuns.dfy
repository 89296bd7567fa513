/** The times, mode and names in the records: what each operation sets of them and what it keeps, over whole runs. */
module RecordRuns {
  import opened Bytes
  import opened FileIds
  import opened ChunkedFile
  import opened Namespace
  import opened NamespaceSteps
  import opened Mount
  import opened MountRuns
  import TextMeta

  /** A record without what it says of the contents. */
  datatype Attributes = Attributes(
    id: string, path: string, chunkSize: nat, atime: int, mtime: int, ctime: int, mode: nat)

  function AttributesOf(m: FileMeta): Attributes
  {
    Attributes(m.pathId, m.logicalPath, m.chunkSize, m.atime, m.mtime, m.ctime, m.mode)
  }

  /** The attributes of every path, as its text loads. */
  ghost function AttributesOn(t: Mounted): map<string, Attributes>
  {
    map p | p in t.index && LoadRecord(t.texts, t.index[p]).Found? :: AttributesOf(LoadRecord(t.texts, t.index[p]).m)
  }

  /** What an operation does to them: a change sets two of the times, a rename the path, and all else stays. */
  function AttributesStep(C: pos, a: map<string, Attributes>, op: Op): map<string, Attributes>
  {
    match op
    case Create(p, mode, now) =>
      var q := Norm(p);
      if q in a then a else a[q := Attributes(PathId(q), q, C, now, now, now, mode % 0x200)]
    case Write(p, buf, _, now) => if buf == [] then a else Changed(a, Norm(p), now)
    case Truncate(p, _, now) => Changed(a, Norm(p), now)
    case Unlink(p) => Without(a, Norm(p))
    case Rename(from, to) =>
      if Norm(from) in a then Without(a, Norm(from))[Norm(to) := a[Norm(from)].(path := Norm(to))] else a
  }

  function Changed(a: map<string, Attributes>, p: string, now: int): map<string, Attributes>
  {
    if p in a then a[p := a[p].(mtime := now, ctime := now)] else a
  }

  // ---------------------------------------------------------------- one operation, on records

  ghost function AttributesIn(s: Fs): map<string, Attributes>
  {
    map p | p in s.index && s.index[p] in s.metas :: AttributesOf(s.metas[s.index[p]])
  }

  lemma LoadedAttributes(L: Layout, t: Mounted)
    requires Sound(L, t)
    ensures AttributesOn(t) == AttributesIn(Loaded(t))
  {
    LoadedParts(t);
    hide Loaded, LoadRecord, AttributesOf, Inv, Readable;
    forall p | p in t.index
      ensures t.index[p] in Loaded(t).metas && LoadRecord(t.texts, t.index[p]) == Found(Loaded(t).metas[t.index[p]])
    {
      IndexedRecord(L, t, p);
    }
  }

  lemma PathsOf(L: Layout, s: Fs, p: string)
    requires Inv(L, s)
    ensures p in s.index <==> p in AttributesIn(s)
    ensures p in s.index ==> PathToId(s.index, p) == s.index[p] != "" && s.index[p] in s.metas
                             && s.metas[s.index[p]].pathId == s.index[p]
    ensures p !in s.index ==> PathToId(s.index, p) == ""
  {
    assert IndexedPath(s, p);
    if p in s.index {
      assert OwnedMeta(s, s.index[p]);
    }
  }

  lemma AllPaths(L: Layout, s: Fs)
    requires Inv(L, s)
    ensures AttributesIn(s).Keys == s.index.Keys && forall p :: p in s.index ==> s.index[p] in s.metas
  {
    hide Inv, AttributesIn;
    forall p ensures p in s.index <==> p in AttributesIn(s) {
      PathsOf(L, s, p);
    }
    forall p | p in s.index ensures s.index[p] in s.metas {
      PathsOf(L, s, p);
    }
  }

  lemma PutAttributes(L: Layout, s: Fs, p: string, f: File, now: int)
    requires Inv(L, s) && p in s.index && s.index[p] in s.metas
    ensures AttributesIn(PutFile(s, s.index[p], f, now)) == Changed(AttributesIn(s), p, now)
  {
    PathsOf(L, s, p);
    AllPaths(L, s);
    OneIdOnePath(L, s, p);
    hide Inv, PutBlobs;
    var u := PutFile(s, s.index[p], f, now);
    assert AttributesOf(u.metas[s.index[p]]) == AttributesOf(s.metas[s.index[p]]).(mtime := now, ctime := now);
  }

  lemma CreateAttributes(L: Layout, s: Fs, p: string, mode: nat, now: int)
    requires Inv(L, s) && p !in s.index && PathId(p) !in s.metas
    ensures AttributesIn(CreateFs(L, s, p, mode, now).0) ==
            AttributesIn(s)[p := Attributes(PathId(p), p, L.C, now, now, now, mode % 0x200)]
  {
    hide Inv, PathId;
    AllPaths(L, s);
    PathsOf(L, s, p);
    hide AttributesOf;
    var m := NewRecord(L, p, mode, now);
    assert AttributesOf(m) == Attributes(PathId(p), p, L.C, now, now, now, mode % 0x200) by {
      NewAttributes(L, p, mode, now);
    }
  }

  lemma NewAttributes(L: Layout, p: string, mode: nat, now: int)
    ensures AttributesOf(NewRecord(L, p, mode, now)) == Attributes(PathId(p), p, L.C, now, now, now, mode % 0x200)
  {
    hide PathId;
  }

  lemma UnlinkAttributes(L: Layout, s: Fs, p: string)
    requires Inv(L, s) && p in s.index
    ensures AttributesIn(UnlinkFs(s, p).0) == Without(AttributesIn(s), p)
  {
    AllPaths(L, s);
    PathsOf(L, s, p);
    OneIdOnePath(L, s, p);
    hide Inv, RemoveChunks, AttributesOf;
  }

  lemma MoveAttributes(L: Layout, s: Fs, from: string, to: string)
    requires Inv(L, s) && from in s.index && to !in s.index
    ensures from in AttributesIn(s)
    ensures AttributesIn(Moved(s, from, to, s.index[from])) ==
            Without(AttributesIn(s), from)[to := AttributesIn(s)[from].(path := to)]
  {
    AllPaths(L, s);
    PathsOf(L, s, from);
    OneIdOnePath(L, s, from);
    hide Inv;
  }

  lemma Replaced<V>(a: map<string, V>, from: string, to: string, v: V)
    requires from in a && from != to
    ensures from in Without(a, to) && Without(a, to)[from] == a[from]
    ensures Without(Without(a, to), from)[to := v] == Without(a, from)[to := v]
  {
  }

  lemma DropAttributes(L: Layout, s: Fs, to: string)
    requires Inv(L, s)
    ensures AttributesIn(DropTarget(s, to)) == Without(AttributesIn(s), to)
    ensures Inv(L, DropTarget(s, to)) && DropTarget(s, to).index == Without(s.index, to)
  {
    PathsOf(L, s, to);
    DropTargetInv(L, s, to);
    if to in s.index {
      UnlinkAttributes(L, s, to);
    } else {
      assert Without(AttributesIn(s), to) == AttributesIn(s);
    }
  }

  lemma RenameAttributes(L: Layout, s: Fs, from: string, to: string)
    requires Inv(L, s) && from in s.index && from != to
    ensures from in AttributesIn(s)
    ensures AttributesIn(RenameFs(s, from, to).0) ==
            Without(AttributesIn(s), from)[to := AttributesIn(s)[from].(path := to)]
  {
    PathsOf(L, s, from);
    hide Inv, AttributesIn, Moved, DropTarget;
    DropAttributes(L, s, to);
    MoveAttributes(L, DropTarget(s, to), from, to);
    Replaced(AttributesIn(s), from, to, AttributesIn(s)[from].(path := to));
  }

  lemma AttributesRefine(L: Layout, s: Fs, op: Op)
    requires Inv(L, s) && IdGuard(s, op)
    ensures AttributesIn(Apply(L, s, op).0) == AttributesStep(L.C, AttributesIn(s), op)
  {
    hide Inv, AttributesIn, PutFile, FileOf, Written, Truncated, PathId, Moved, DropTarget;
    match op
    case Create(p, mode, now) =>
      PathsOf(L, s, Norm(p));
      if Norm(p) !in s.index {
        CreateAttributes(L, s, Norm(p), mode, now);
      }
    case Write(p, buf, off, now) =>
      PathsOf(L, s, Norm(p));
      if Norm(p) in s.index && buf != [] {
        PutAttributes(L, s, Norm(p), Written(L, FileOf(s, s.index[Norm(p)]), buf, off), now);
      }
    case Truncate(p, ns, now) =>
      PathsOf(L, s, Norm(p));
      if Norm(p) in s.index {
        PutAttributes(L, s, Norm(p), Truncated(L, FileOf(s, s.index[Norm(p)]), ns), now);
      }
    case Unlink(p) =>
      PathsOf(L, s, Norm(p));
      if Norm(p) in s.index {
        UnlinkAttributes(L, s, Norm(p));
      }
    case Rename(from, to) =>
      PathsOf(L, s, Norm(from));
      if Norm(from) in s.index {
        RenameAttributes(L, s, Norm(from), Norm(to));
      }
  }

  // ---------------------------------------------------------------- on the texts

  /** The guard of one operation whose new name has no whitespace. */
  ghost predicate Plain(L: Layout, t: Mounted, op: Op)
  {
    NameGuard(L, t, op) && InWidths(L, t, op) && TokenOp(op)
  }

  /** One operation on the texts: what the records load as changes as stated, for every path there is. */
  lemma StepSets(L: Layout, t: Mounted, op: Op)
    requires Sound(L, t) && Plain(L, t, op)
    ensures AttributesOn(ApplyOn(L, t, op).0) == AttributesStep(L.C, AttributesOn(t), op)
  {
    hide Loaded, Inv, Readable, ApplyOn, Apply, NameGuard, InWidths, TokenOp, Alike, AttributesOn, AttributesIn;
    GuardsAgree(L, t, op);
    StepSound(L, t, op);
    StepActs(L, t, op);
    LoadedAttributes(L, t);
    LoadedAttributes(L, ApplyOn(L, t, op).0);
    hide AttributesStep, IdGuard;
    AttributesRefine(L, Loaded(t), op);
  }

  predicate Names(op: Op, q: string)
  {
    match op
    case Rename(from, to) => q == Norm(from) || q == Norm(to)
    case _ => q == Norm(op.path)
  }

  /** `q` keeps its id and its record. */
  ghost predicate Same(s: Fs, u: Fs, q: string)
  {
    q in s.index && q in u.index && u.index[q] == s.index[q] && s.index[q] in s.metas && s.index[q] in u.metas
    && u.metas[s.index[q]] == s.metas[s.index[q]]
  }

  lemma UnlinkKeeps(L: Layout, s: Fs, p: string, q: string)
    requires Inv(L, s) && q in s.index && q != p
    ensures Same(s, UnlinkFs(s, p).0, q)
  {
    PathsOf(L, s, p);
    PathsOf(L, s, q);
    assert OnePath(s, p, q);
    hide Inv, RemoveChunks;
  }

  lemma MoveKeeps(L: Layout, s: Fs, from: string, to: string, q: string)
    requires Inv(L, s) && from in s.index && q in s.index && q != from && q != to
    ensures Same(s, Moved(s, from, to, s.index[from]), q)
  {
    PathsOf(L, s, from);
    PathsOf(L, s, q);
    assert OnePath(s, from, q);
    hide Inv;
  }

  lemma RenameKeeps(L: Layout, s: Fs, from: string, to: string, q: string)
    requires Inv(L, s) && from in s.index && from != to && q in s.index && q != from && q != to
    ensures Same(s, RenameFs(s, from, to).0, q)
  {
    PathsOf(L, s, from);
    DropTargetInv(L, s, to);
    if PathToId(s.index, to) != "" {
      UnlinkKeeps(L, s, to, q);
      UnlinkKeeps(L, s, to, from);
    } else {
      PathsOf(L, s, q);
    }
    hide Inv, Moved, UnlinkFs;
    MoveKeeps(L, DropTarget(s, to), from, to, q);
  }

  lemma StoreKeeps(L: Layout, s: Fs, p: string, f: File, now: int, q: string)
    requires Inv(L, s) && p in s.index && s.index[p] in s.metas && q in s.index && q != p
    ensures Same(s, PutFile(s, s.index[p], f, now), q)
  {
    PathsOf(L, s, p);
    PathsOf(L, s, q);
    assert OnePath(s, p, q);
    hide Inv, PutBlobs;
  }

  lemma OthersIn(L: Layout, s: Fs, op: Op, q: string)
    requires Inv(L, s) && IdGuard(s, op) && q in s.index && !Names(op, q)
    ensures Same(s, Apply(L, s, op).0, q)
  {
    PathsOf(L, s, q);
    hide Inv, PutFile, FileOf, Written, Truncated, PathId, Moved, DropTarget, UnlinkFs;
    match op
    case Create(p, mode, now) => PathsOf(L, s, Norm(p));
    case Write(p, buf, off, now) =>
      PathsOf(L, s, Norm(p));
      if Norm(p) in s.index && buf != [] {
        StoreKeeps(L, s, Norm(p), Written(L, FileOf(s, s.index[Norm(p)]), buf, off), now, q);
      }
    case Truncate(p, ns, now) =>
      PathsOf(L, s, Norm(p));
      if Norm(p) in s.index {
        StoreKeeps(L, s, Norm(p), Truncated(L, FileOf(s, s.index[Norm(p)]), ns), now, q);
      }
    case Unlink(p) => UnlinkKeeps(L, s, Norm(p), q);
    case Rename(from, to) =>
      PathsOf(L, s, Norm(from));
      if Norm(from) in s.index {
        RenameKeeps(L, s, Norm(from), Norm(to), q);
      }
  }

  /** And the whole record of a path that the operation does not name loads as before, its sizes included. */
  lemma OthersKeepRecords(L: Layout, t: Mounted, op: Op, q: string)
    requires Sound(L, t) && Plain(L, t, op) && q in t.index && !Names(op, q)
    ensures var u := ApplyOn(L, t, op).0;
            && q in u.index && u.index[q] == t.index[q]
            && LoadRecord(t.texts, t.index[q]).Found?
            && LoadRecord(u.texts, t.index[q]) == LoadRecord(t.texts, t.index[q])
  {
    var u := ApplyOn(L, t, op).0;
    hide Loaded, Inv, Readable, ApplyOn, Apply, NameGuard, InWidths, TokenOp, Alike, Names, IdGuard, LoadRecord;
    LoadedParts(t);
    LoadedParts(u);
    GuardsAgree(L, t, op);
    StepSound(L, t, op);
    StepActs(L, t, op);
    OthersIn(L, Loaded(t), op, q);
    IndexedRecord(L, t, q);
    IndexedRecord(L, u, q);
  }

  function AttributesRun(C: pos, a: map<string, Attributes>, ops: seq<Op>): map<string, Attributes>
  {
    if ops == [] then a else AttributesStep(C, AttributesRun(C, a, ops[..|ops| - 1]), ops[|ops| - 1])
  }

  lemma {:induction false} RunFirst(C: pos, a: map<string, Attributes>, ops: seq<Op>)
    requires ops != []
    ensures AttributesRun(C, a, ops) == AttributesRun(C, AttributesStep(C, a, ops[0]), ops[1..])
  {
    hide AttributesStep;
    if |ops| == 1 {
      assert ops[..0] == [] && ops[1..] == [];
    } else {
      RunFirst(C, a, ops[..|ops| - 1]);
      assert ops[..|ops| - 1][1..] == ops[1..][..|ops| - 2];
    }
  }

  lemma {:induction false} RunSetsFrom(L: Layout, t: Mounted, ops: seq<Op>)
    requires Sound(L, t) && WidthsRun(L, t, ops) && NamesRun(L, t, ops)
    requires forall i :: 0 <= i < |ops| ==> TokenOp(ops[i])
    ensures AttributesOn(RunOn(L, t, ops)) == AttributesRun(L.C, AttributesOn(t), ops)
    decreases |ops|
  {
    hide Sound, ApplyOn, NameGuard, InWidths, TokenOp, Keeps, AttributesOn, AttributesStep, AttributesRun;
    if ops != [] {
      assert TokenOp(ops[0]) && Plain(L, t, ops[0]);
      StepSound(L, t, ops[0]);
      StepSets(L, t, ops[0]);
      RunSetsFrom(L, ApplyOn(L, t, ops[0]).0, ops[1..]);
      RunFirst(L.C, AttributesOn(t), ops);
    } else {
      NoSteps(L.C, AttributesOn(t));
    }
  }

  lemma NoSteps(C: pos, a: map<string, Attributes>)
    ensures AttributesRun(C, a, []) == a
  {
  }

  /**
   When the file that has path `p` after a run was last changed: by a write that was not empty, by a truncate, or by its
   creation. None if there is no file.
   */
  function LastChange(ops: seq<Op>, p: string): Option<int>
    decreases |ops|
  {
    if ops == [] then None
    else
      var before, op := ops[..|ops| - 1], ops[|ops| - 1];
      match op
      case Create(q, _, now) =>
        if Norm(q) == p && LastChange(before, p) == None then Some(now) else LastChange(before, p)
      case Write(q, buf, _, now) =>
        if Norm(q) == p && buf != [] && LastChange(before, p) != None then Some(now) else LastChange(before, p)
      case Truncate(q, _, now) =>
        if Norm(q) == p && LastChange(before, p) != None then Some(now) else LastChange(before, p)
      case Unlink(q) => if Norm(q) == p then None else LastChange(before, p)
      case Rename(from, to) =>
        if LastChange(before, Norm(from)) == None then LastChange(before, p)
        else if Norm(to) == p then LastChange(before, Norm(from))
        else if Norm(from) == p then None
        else LastChange(before, p)
  }

  lemma {:induction false} LastChangeIs(C: pos, ops: seq<Op>, p: string)
    ensures var a := AttributesRun(C, map[], ops);
            && (p in a <==> LastChange(ops, p) != None)
            && (p in a ==> LastChange(ops, p) == Some(a[p].mtime) && a[p].ctime == a[p].mtime)
    decreases |ops|
  {
    if ops != [] {
      hide PathId;
      LastChangeIs(C, ops[..|ops| - 1], p);
      if ops[|ops| - 1].Rename? {
        LastChangeIs(C, ops[..|ops| - 1], Norm(ops[|ops| - 1].from));
      }
    }
  }

  /**
   After any run from the empty mount in which every new name is free of whitespace, the attributes of all paths are
   those that the operations set in turn; and both the time of modification and that of change are those of the last write,
   truncate or creation of the file.
   */
  lemma RunSets(L: Layout, ops: seq<Op>)
    requires NamesRun(L, EMPTY_MOUNT, ops) && WidthsRun(L, EMPTY_MOUNT, ops)
    requires forall i :: 0 <= i < |ops| ==> TokenOp(ops[i])
    ensures var t := RunOn(L, EMPTY_MOUNT, ops);
            && AttributesOn(t) == AttributesRun(L.C, map[], ops)
            && forall p :: p in t.index ==>
                 && LoadRecord(t.texts, t.index[p]).Found?
                 && LastChange(ops, p) == Some(LoadRecord(t.texts, t.index[p]).m.mtime)
                 && LastChange(ops, p) == Some(LoadRecord(t.texts, t.index[p]).m.ctime)
  {
    var t := RunOn(L, EMPTY_MOUNT, ops);
    EmptySound(L);
    assert AttributesOn(EMPTY_MOUNT) == map[];
    hide Sound, ApplyOn, NamesRun, WidthsRun, RunOn, TokenOp, AttributesRun, LoadRecord, Loaded, KeptThroughout;
    RunInvIff(L, EMPTY_MOUNT, ops);
    RunSetsFrom(L, EMPTY_MOUNT, ops);
    forall p | p in t.index
      ensures LoadRecord(t.texts, t.index[p]).Found?
      ensures LastChange(ops, p) == Some(LoadRecord(t.texts, t.index[p]).m.mtime)
      ensures LastChange(ops, p) == Some(LoadRecord(t.texts, t.index[p]).m.ctime)
    {
      IndexedRecord(L, t, p);
      assert p in AttributesOn(t);
      LastChangeIs(L.C, ops, p);
    }
  }
}
