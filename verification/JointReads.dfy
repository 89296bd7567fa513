/** Any number of pooled reads, workers and writers at once: a `ThreadPool` and one `PooledRead` per client. */
module JointReads {
  import opened Bytes
  import opened ChunkedFile
  import opened ChunkedRead
  import P = ThreadPool
  import R = PooledRead
  import S = Snapshots

  /** Task `i` of client `c`. */
  datatype Job = Job(c: nat, i: nat)

  /** `Loading` holds the shared lock to load the record; `Working` enqueues; `Waiting` has called `wait_all`. */
  datatype Phase = Start | Loading | Working | Waiting

  /** A read of `size` bytes at `off`; once the record is loaded, of `nc` tasks, of which `pushed` are enqueued. */
  datatype Client = Client(file: nat, size: nat, off: nat, phase: Phase, nc: nat, pushed: nat)

  datatype Edit = Store(ci: nat, blob: seq<byte>) | Remove(ci: nat) | Save(size: nat, n: nat, csize: nat)

  /** `Pending` has asked for the exclusive lock; `Inside` holds it. */
  datatype WriterPc = Pending | Inside | Gone

  datatype Writer = Writer(file: nat, pc: WriterPc, script: seq<Edit>)

  /**
   Clients load metadata under the shared lock, enqueue one task per chunk and wait. Workers run the tasks from the one
   queue, and block at the shared lock while a writer is inside. Writers hold their file's lock exclusively for a script
   of edits. `views[c]` is the read of client `c`, with the file as it is for everyone.
   */
  datatype Joint = Joint(pool: P.Pool<Job>, views: seq<R.Read>, clients: seq<Client>, writers: seq<Writer>)

  datatype Event =
    | MetaLock(c: nat)
    | MetaUnlock(c: nat)
    | Push(c: nat)
    | CallWait(c: nat)
    | Pool(e: P.Event<Job>)
    | Work(w: nat)
    | WriterLock(x: nat)
    | WriterEdit(x: nat)
    | WriterUnlock(x: nat)

  // ---------------------------------------------------------------- the locks

  ghost predicate HeldFile(ws: seq<Writer>, g: nat)
  {
    exists x :: 0 <= x < |ws| && ws[x].pc == Inside && ws[x].file == g
  }

  ghost predicate AskedFile(ws: seq<Writer>, g: nat)
  {
    exists x :: 0 <= x < |ws| && ws[x].pc == Pending && ws[x].file == g
  }

  /** The shared lock can be had; with `writersFirst`, only if no writer is waiting either. */
  ghost predicate CanShare(writersFirst: bool, s: Joint, g: nat)
  {
    !HeldFile(s.writers, g) && (writersFirst ==> !AskedFile(s.writers, g))
  }

  /** No reader and no writer holds the lock of the file. */
  ghost predicate Free(s: Joint, g: nat)
  {
    && !HeldFile(s.writers, g)
    && forall c :: 0 <= c < |s.clients| && c < |s.views| && s.clients[c].file == g ==>
         s.clients[c].phase != Loading && R.Locked !in s.views[c].tasks && R.Sized !in s.views[c].tasks
  }

  /** The shared lock waits for the writers inside, if they are preferred also for those at the lock, but for no reads. */
  lemma CanShareIff(writersFirst: bool, s: Joint, g: nat)
    ensures CanShare(writersFirst, s, g) <==>
            forall x :: 0 <= x < |s.writers| && s.writers[x].file == g ==>
              s.writers[x].pc == Gone || (s.writers[x].pc == Pending && !writersFirst)
  {
  }

  /** Writers and reads of other files have no part in whether a lock can be had. */
  lemma LocksAreByFile(writersFirst: bool, s: Joint, s': Joint, g: nat)
    requires |s.writers| == |s'.writers| && |s.clients| == |s'.clients| == |s.views| == |s'.views|
    requires forall x :: 0 <= x < |s.writers| ==>
               s.writers[x] == s'.writers[x] || (s.writers[x].file != g && s'.writers[x].file != g)
    requires forall c :: 0 <= c < |s.clients| ==>
               || (s.clients[c] == s'.clients[c] && s.views[c] == s'.views[c])
               || (s.clients[c].file != g && s'.clients[c].file != g)
    ensures CanShare(writersFirst, s, g) <==> CanShare(writersFirst, s', g)
    ensures Free(s, g) <==> Free(s', g)
  {
  }

  // ---------------------------------------------------------------- the steps

  /** The first chunk of a read. */
  function Fc(L: Layout, cl: Client): nat
  {
    cl.off / L.C
  }

  /** The next step of a task on its file. */
  function TaskStep(pc: R.TaskPc, i: nat): R.Event
  {
    match pc
    case NotStarted => R.Begin(i)
    case Passed => R.Lock(i)
    case Locked => R.Size(i)
    case Sized => R.Load(i)
    case Finished => R.Begin(i)
  }

  predicate Runs(s: Joint, w: nat, j: Job)
  {
    w < |s.pool.workers| && s.pool.workers[w] == P.Running(j)
  }

  predicate HasTask(s: Joint, j: Job)
  {
    j.c < |s.clients| && j.c < |s.views| && j.i < |s.views[j.c].tasks|
  }

  predicate ClientIn(s: Joint, c: nat, phase: Phase)
  {
    c < |s.clients| && c < |s.views| && c < |s.pool.clients| && s.clients[c].phase == phase
  }

  /** The pool's own steps: everything but pushing, waiting, returning and shutting down. */
  predicate PoolKind(e: P.Event<Job>)
  {
    e.NotifyOne? || e.NotifyNobody? || e.Test? || e.Finish? || e.TestDone? || e.SpuriousWorker? || e.SpuriousClient?
  }

  predicate WriterIn(s: Joint, x: nat, pc: WriterPc)
  {
    x < |s.writers| && s.writers[x].pc == pc
  }

  ghost predicate Enabled(writersFirst: bool, s: Joint, e: Event)
  {
    match e
    case MetaLock(c) => ClientIn(s, c, Start) && CanShare(writersFirst, s, s.clients[c].file)
    case MetaUnlock(c) => ClientIn(s, c, Loading)
    case Push(c) => ClientIn(s, c, Working) && s.clients[c].pushed < s.clients[c].nc && s.pool.clients[c] == P.Idle
    case CallWait(c) => ClientIn(s, c, Working) && s.clients[c].pushed == s.clients[c].nc && s.pool.clients[c] == P.Idle
    case Pool(pe) => PoolKind(pe) && P.Enabled(s.pool, pe)
    case Work(w) =>
      && w < |s.pool.workers| && s.pool.workers[w].Running? && HasTask(s, s.pool.workers[w].t)
      && var j := s.pool.workers[w].t;
         s.views[j.c].tasks[j.i] == R.Passed ==> CanShare(writersFirst, s, s.clients[j.c].file)
    case WriterLock(x) => WriterIn(s, x, Pending) && Free(s, s.writers[x].file)
    case WriterEdit(x) => WriterIn(s, x, Inside) && s.writers[x].script != []
    case WriterUnlock(x) => WriterIn(s, x, Inside) && s.writers[x].script == []
  }

  function PoolNext(p: P.Pool<Job>, e: P.Event<Job>): P.Pool<Job>
  {
    if P.Enabled(p, e) && (e.Finish? ==> 0 < p.active) then P.Next(p, e) else p
  }

  function ReadNext(L: Layout, fc: nat, r: R.Read, e: R.Event): R.Read
  {
    if R.Shaped(r) && R.Enabled(r, e) then R.Next(L, fc, r, e) else r
  }

  /** A step of a writer, seen by every read of the file. */
  function SeenByAll(L: Layout, s: Joint, g: nat, e: R.Event): (rs: seq<R.Read>)
    ensures |rs| == |s.views|
  {
    seq(|s.views|, c requires 0 <= c < |s.views| =>
      if c < |s.clients| && s.clients[c].file == g then ReadNext(L, Fc(L, s.clients[c]), s.views[c], e) else s.views[c])
  }

  function EditEvent(e: Edit): R.Event
  {
    match e
    case Store(ci, blob) => R.WriterStore(ci, blob)
    case Remove(ci) => R.WriterRemove(ci)
    case Save(size, n, csize) => R.WriterSave(size, n, csize)
  }

  ghost function Next(L: Layout, s: Joint, e: Event): Joint
    requires exists writersFirst :: Enabled(writersFirst, s, e)
  {
    match e
    case MetaLock(c) => s.(clients := s.clients[c := s.clients[c].(phase := Loading)])
    case MetaUnlock(c) =>
      var cl, f := s.clients[c], s.views[c].file;
      s.(clients := s.clients[c := cl.(phase := Working, nc := R.Tasks(L, f, cl.size, cl.off))],
         views := s.views[c := R.Start(L, f, cl.size, cl.off)])
    case Push(c) =>
      s.(pool := PoolNext(s.pool, P.Push(c, Job(c, s.clients[c].pushed))),
         clients := s.clients[c := s.clients[c].(pushed := s.clients[c].pushed + 1)])
    case CallWait(c) =>
      s.(pool := PoolNext(s.pool, P.CallWait(c)), clients := s.clients[c := s.clients[c].(phase := Waiting)])
    case Pool(pe) => s.(pool := PoolNext(s.pool, pe))
    case Work(w) =>
      var j := s.pool.workers[w].t;
      var pc := s.views[j.c].tasks[j.i];
      if pc == R.Finished then s.(pool := PoolNext(s.pool, P.Return(w)))
      else s.(views := s.views[j.c := ReadNext(L, Fc(L, s.clients[j.c]), s.views[j.c], TaskStep(pc, j.i))])
    case WriterLock(x) =>
      s.(writers := s.writers[x := s.writers[x].(pc := Inside)],
         views := SeenByAll(L, s, s.writers[x].file, R.WriterLock))
    case WriterEdit(x) =>
      s.(writers := s.writers[x := s.writers[x].(script := s.writers[x].script[1..])],
         views := SeenByAll(L, s, s.writers[x].file, EditEvent(s.writers[x].script[0])))
    case WriterUnlock(x) =>
      s.(writers := s.writers[x := s.writers[x].(pc := Gone)],
         views := SeenByAll(L, s, s.writers[x].file, R.WriterUnlock))
  }

  // ---------------------------------------------------------------- the invariant

  predicate Untouched(r: R.Read)
  {
    forall i :: 0 <= i < |r.tasks| ==> r.tasks[i] == R.NotStarted
  }

  /** The phase of a client agrees with its read and with its place in the pool. */
  predicate PhaseOk(cl: Client, r: R.Read, pc: P.ClientPc)
  {
    && cl.pushed <= cl.nc
    && match cl.phase
       case Start => cl.nc == 0 && pc == P.Idle
       case Loading => cl.nc == 0 && pc == P.Idle && !r.writer
       case Working => pc == P.Idle || pc == P.Pushed
       case Waiting => cl.pushed == cl.nc && pc != P.Pushed
  }

  ghost predicate ClientOk(L: Layout, s: Joint, c: nat)
  {
    c < |s.clients| && c < |s.views| && c < |s.pool.clients| ==>
      && R.Inv(L, Fc(L, s.clients[c]), s.views[c]) && |s.views[c].tasks| == s.clients[c].nc
      && (s.views[c].writer <==> HeldFile(s.writers, s.clients[c].file))
      && PhaseOk(s.clients[c], s.views[c], s.pool.clients[c])
      && TasksOk(L, s.clients[c], s.views[c])
  }

  /** Past loading, the tasks are those of the request, as the record of the first version clamps it. */
  predicate TasksOk(L: Layout, cl: Client, r: R.Read)
  {
    cl.phase == Working || cl.phase == Waiting ==>
      0 < |r.versions| && cl.nc == R.Tasks(L, r.versions[0], cl.size, cl.off)
  }

  /** A task of a client that is past loading. */
  predicate ValidJob(s: Joint, j: Job)
  {
    HasTask(s, j) && (s.clients[j.c].phase == Working || s.clients[j.c].phase == Waiting)
  }

  predicate FinishedJob(s: Joint, j: Job)
  {
    HasTask(s, j) && s.views[j.c].tasks[j.i] == R.Finished
  }

  /** A task that is under way is being run. */
  ghost predicate Owned(s: Joint, j: Job)
  {
    HasTask(s, j) && s.views[j.c].tasks[j.i] != R.NotStarted && s.views[j.c].tasks[j.i] != R.Finished ==>
      exists w :: Runs(s, w, j)
  }

  ghost predicate ReturnedOk(s: Joint, w: nat)
  {
    w < |s.pool.workers| && s.pool.workers[w].Returned? ==> FinishedJob(s, s.pool.workers[w].t)
  }

  predicate InsideAt(ws: seq<Writer>, x: nat)
  {
    x < |ws| && ws[x].pc == Inside
  }

  ghost predicate OneInside(ws: seq<Writer>)
  {
    forall x: nat, y: nat :: InsideAt(ws, x) && InsideAt(ws, y) && ws[x].file == ws[y].file ==> x == y
  }

  ghost predicate Accepted(s: Joint, c: nat, i: nat)
  {
    c < |s.clients| && i < s.clients[c].pushed ==> Job(c, i) in s.pool.accepted
  }

  ghost predicate Inv(L: Layout, s: Joint)
  {
    && |s.clients| == |s.views| == |s.pool.clients|
    && P.Inv(s.pool) && !s.pool.stop
    && (forall c: nat :: ClientOk(L, s, c))
    && (forall j: Job :: j in s.pool.accepted ==> ValidJob(s, j))
    && (forall c: nat, i: nat :: Accepted(s, c, i))
    && (forall j: Job :: Owned(s, j))
    && (forall j: Job :: j in s.pool.done ==> FinishedJob(s, j))
    && (forall w: nat :: ReturnedOk(s, w))
    && OneInside(s.writers)
  }

  /** Nothing has happened yet: clients at their start, writers waiting, the reads on the files as they are. */
  function Init(workers: nat, files: nat -> File, clients: seq<Client>, writers: seq<Writer>): Joint
  {
    Joint(P.Init(workers, |clients|),
          seq(|clients|, c requires 0 <= c < |clients| => R.Init(files(clients[c].file), 0)),
         clients, writers)
  }

  ghost predicate AtOutset(clients: seq<Client>, writers: seq<Writer>)
  {
    && (forall c :: 0 <= c < |clients| ==> clients[c].phase == Start && clients[c].nc == clients[c].pushed == 0)
    && (forall x :: 0 <= x < |writers| ==> writers[x].pc == Pending)
  }

  lemma InitInv(L: Layout, workers: nat, files: nat -> File, clients: seq<Client>, writers: seq<Writer>)
    requires 0 < workers && AtOutset(clients, writers)
    ensures Inv(L, Init(workers, files, clients, writers))
  {
    P.InitInv<Job>(workers, |clients|);
    var s := Init(workers, files, clients, writers);
    assert forall g :: !HeldFile(writers, g);
    forall c: nat ensures ClientOk(L, s, c) {
      if c < |clients| {
        R.InitInv(L, Fc(L, clients[c]), files(clients[c].file), 0);
        InitTasks(files(clients[c].file), 0);
      }
    }
    hide P.Inv, R.Inv, HeldFile, ClientOk;
    forall j: Job ensures Owned(s, j) {
      if HasTask(s, j) {
        InitTasks(files(clients[j.c].file), 0);
      }
    }
    assert s.pool.accepted == [] && s.pool.done == multiset{};
    assert forall w: nat :: w < |s.pool.workers| ==> s.pool.workers[w] == P.Ready;
  }

  lemma InitTasks(f: File, nc: nat)
    ensures Untouched(R.Init(f, nc)) && |R.Init(f, nc).tasks| == nc && !R.Init(f, nc).writer
    ensures R.Init(f, nc).versions == [f]
  {
  }

  // ---------------------------------------------------------------- tasks and the pool keep the invariant

  /** One task of client `c` moves on, run by some worker. */
  lemma ViewMoves(L: Layout, s: Joint, c: nat, i: nat, r: R.Read)
    requires Inv(L, s) && ValidJob(s, Job(c, i)) && !FinishedJob(s, Job(c, i))
    requires exists w :: Runs(s, w, Job(c, i))
    requires R.Inv(L, Fc(L, s.clients[c]), r) && |r.tasks| == |s.views[c].tasks| && r.writer == s.views[c].writer
    requires r.versions == s.views[c].versions
    requires forall k :: 0 <= k < |r.tasks| && k != i ==> r.tasks[k] == s.views[c].tasks[k]
    ensures Inv(L, s.(views := s.views[c := r]))
  {
    hide R.Inv, P.Inv, HeldFile;
    var s' := s.(views := s.views[c := r]);
    forall k: nat ensures ClientOk(L, s', k) {
      assert ClientOk(L, s, k);
    }
    forall j: Job ensures Owned(s', j) {
      assert Owned(s, j);
      assert forall w: nat :: Runs(s', w, j) <==> Runs(s, w, j);
      if j == Job(c, i) {
        var w :| Runs(s, w, j);
        assert Runs(s', w, j);
      } else if w :| Runs(s, w, j) {
        assert Runs(s', w, j);
      }
    }
    forall j: Job ensures FinishedJob(s, j) ==> FinishedJob(s', j) {
    }
    forall w: nat ensures ReturnedOk(s', w) {
      assert ReturnedOk(s, w);
    }
    forall k: nat, l: nat ensures Accepted(s', k, l) {
      assert Accepted(s, k, l);
    }
    assert forall j: Job :: ValidJob(s, j) ==> ValidJob(s', j);
  }

  lemma TaskMoves(L: Layout, writersFirst: bool, s: Joint, w: nat)
    requires Inv(L, s) && Enabled(writersFirst, s, Work(w))
    requires !FinishedJob(s, s.pool.workers[w].t)
    ensures Inv(L, Next(L, s, Work(w)))
  {
    var j := s.pool.workers[w].t;
    var pc := s.views[j.c].tasks[j.i];
    P.AllAccepted(s.pool, j);
    assert ClientOk(L, s, j.c) && Runs(s, w, j);
    var r := s.views[j.c];
    hide P.Inv, R.Inv;
    assert R.Shaped(r) by {
      ShapedFrom(L, Fc(L, s.clients[j.c]), r);
    }
    R.TaskStepInv(L, Fc(L, s.clients[j.c]), r, TaskStep(pc, j.i));
    StepFacts(L, Fc(L, s.clients[j.c]), r, pc, j.i);
    ViewMoves(L, s, j.c, j.i, R.Next(L, Fc(L, s.clients[j.c]), r, TaskStep(pc, j.i)));
  }

  lemma ShapedFrom(L: Layout, fc: nat, r: R.Read)
    requires R.Inv(L, fc, r)
    ensures R.Shaped(r)
  {
  }

  lemma StepFacts(L: Layout, fc: nat, r: R.Read, pc: R.TaskPc, i: nat)
    requires R.Shaped(r) && i < |r.tasks| && r.tasks[i] == pc != R.Finished && R.Enabled(r, TaskStep(pc, i))
    ensures var r' := R.Next(L, fc, r, TaskStep(pc, i));
            && |r'.tasks| == |r.tasks| && r'.writer == r.writer && r'.versions == r.versions
            && forall k :: 0 <= k < |r.tasks| && k != i ==> r'.tasks[k] == r.tasks[k]
  {
    hide Decoded;
  }

  /** What a step of the pool may do to its clients. */
  predicate ClientMove(a: P.ClientPc, b: P.ClientPc)
  {
    a == b || (a == P.Pushed && b == P.Idle) || (P.InWaitAll(a) && b != P.Pushed)
  }

  /** A pool step that neither pushes nor takes anything from a running task. */
  ghost predicate PoolMove(p: P.Pool<Job>, q: P.Pool<Job>)
  {
    && P.Inv(q) && q.accepted == p.accepted && q.stop == p.stop
    && |q.clients| == |p.clients| && (forall c :: 0 <= c < |p.clients| ==> ClientMove(p.clients[c], q.clients[c]))
    && |q.workers| == |p.workers|
    && (forall w :: 0 <= w < |p.workers| && p.workers[w].Running? ==>
          q.workers[w] == p.workers[w] || q.workers[w] == P.Returned(p.workers[w].t))
    && (forall w :: 0 <= w < |p.workers| && q.workers[w].Returned? ==>
          p.workers[w] == q.workers[w] || p.workers[w] == P.Running(q.workers[w].t))
    && (forall t :: t in q.done ==> t in p.done || exists w :: 0 <= w < |p.workers| && p.workers[w] == P.Returned(t))
  }

  lemma ClientFacts(p: P.Pool<Job>, e: P.Event<Job>)
    requires P.Enabled(p, e) && (PoolKind(e) || e.Return?) && (e.Finish? ==> 0 < p.active)
    ensures var q := P.Next(p, e);
            && q.accepted == p.accepted && q.stop == p.stop && |q.clients| == |p.clients| && |q.workers| == |p.workers|
            && forall c :: 0 <= c < |p.clients| ==> ClientMove(p.clients[c], q.clients[c])
  {
  }

  lemma WorkerFacts(p: P.Pool<Job>, e: P.Event<Job>)
    requires P.Enabled(p, e) && PoolKind(e) && (e.Finish? ==> 0 < p.active)
    ensures var q := P.Next(p, e);
            && |q.workers| == |p.workers|
            && (forall w :: 0 <= w < |p.workers| && p.workers[w].Running? ==> q.workers[w] == p.workers[w])
            && (forall w :: 0 <= w < |p.workers| && q.workers[w].Returned? ==> p.workers[w] == q.workers[w])
  {
    hide P.WokenClients;
  }

  lemma DoneFacts(p: P.Pool<Job>, e: P.Event<Job>)
    requires P.Enabled(p, e) && (PoolKind(e) || e.Return?) && (e.Finish? ==> 0 < p.active)
    ensures forall t :: t in P.Next(p, e).done ==>
              t in p.done || exists w :: 0 <= w < |p.workers| && p.workers[w] == P.Returned(t)
  {
    hide P.WokenClients;
  }

  lemma PoolSteps(p: P.Pool<Job>, e: P.Event<Job>)
    requires P.Inv(p) && P.Enabled(p, e) && PoolKind(e)
    ensures PoolMove(p, PoolNext(p, e))
    ensures forall w :: 0 <= w < |p.workers| && p.workers[w].Running? ==> PoolNext(p, e).workers[w] == p.workers[w]
    ensures forall w :: 0 <= w < |p.workers| && PoolNext(p, e).workers[w].Returned? ==>
              p.workers[w] == PoolNext(p, e).workers[w]
  {
    P.NextInv(p, e);
    ClientFacts(p, e);
    WorkerFacts(p, e);
    DoneFacts(p, e);
    hide P.Inv, P.Next, P.Enabled;
  }

  lemma ReturnSteps(p: P.Pool<Job>, w: nat)
    requires P.Inv(p) && P.Enabled(p, P.Return(w))
    ensures PoolMove(p, PoolNext(p, P.Return(w)))
    ensures PoolNext(p, P.Return(w)).workers == p.workers[w := P.Returned(p.workers[w].t)]
  {
    P.NextInv(p, P.Return(w));
    ClientFacts(p, P.Return(w));
    DoneFacts(p, P.Return(w));
    hide P.Inv;
  }

  /** The pool moves on; a task that a worker has returned from is finished. */
  lemma PoolMoves(L: Layout, s: Joint, p: P.Pool<Job>)
    requires Inv(L, s) && PoolMove(s.pool, p)
    requires forall w :: 0 <= w < |p.workers| && p.workers[w].Returned? ==> FinishedJob(s, p.workers[w].t)
    requires forall w :: 0 <= w < |p.workers| && s.pool.workers[w].Running? ==>
               p.workers[w] == s.pool.workers[w] || FinishedJob(s, s.pool.workers[w].t)
    ensures Inv(L, s.(pool := p))
  {
    hide R.Inv, P.Inv, HeldFile;
    var s' := s.(pool := p);
    forall c: nat ensures ClientOk(L, s', c) {
      assert ClientOk(L, s, c);
    }
    forall j: Job ensures Owned(s', j) {
      assert Owned(s, j);
      if w :| Runs(s, w, j) {
        assert Runs(s', w, j) || FinishedJob(s, j);
      }
    }
    forall j: Job | j in p.done ensures FinishedJob(s', j) {
      if j !in s.pool.done {
        var w :| 0 <= w < |s.pool.workers| && s.pool.workers[w] == P.Returned(j);
        assert ReturnedOk(s, w);
      }
      assert FinishedJob(s, j);
    }
    forall c: nat, i: nat ensures Accepted(s', c, i) {
      assert Accepted(s, c, i);
    }
    assert forall j: Job :: ValidJob(s, j) ==> ValidJob(s', j);
  }

  lemma PoolEventInv(L: Layout, writersFirst: bool, s: Joint, e: P.Event<Job>)
    requires Inv(L, s) && Enabled(writersFirst, s, Pool(e))
    ensures Inv(L, Next(L, s, Pool(e)))
  {
    PoolSteps(s.pool, e);
    hide P.Inv, P.Enabled, R.Inv, PoolNext, PoolKind;
    forall w: nat | w < |s.pool.workers| && PoolNext(s.pool, e).workers[w].Returned?
      ensures FinishedJob(s, PoolNext(s.pool, e).workers[w].t)
    {
      assert ReturnedOk(s, w);
    }
    PoolMoves(L, s, PoolNext(s.pool, e));
  }

  lemma ReturnInv(L: Layout, writersFirst: bool, s: Joint, w: nat)
    requires Inv(L, s) && Enabled(writersFirst, s, Work(w)) && FinishedJob(s, s.pool.workers[w].t)
    ensures Inv(L, Next(L, s, Work(w)))
  {
    var q := PoolNext(s.pool, P.Return(w));
    ReturnSteps(s.pool, w);
    hide P.Inv, P.Enabled, R.Inv, PoolNext;
    forall v: nat | v < |q.workers| && q.workers[v].Returned? ensures FinishedJob(s, q.workers[v].t) {
      assert ReturnedOk(s, v);
    }
    PoolMoves(L, s, q);
  }

  // ---------------------------------------------------------------- clients keep the invariant

  /** A client changes its own record, and its view as long as it has no task. */
  lemma ClientMoves(L: Layout, s: Joint, s': Joint, c: nat)
    requires Inv(L, s) && c < |s.clients| && s'.writers == s.writers
    requires |s'.clients| == |s'.views| == |s'.pool.clients| == |s.clients| && s'.clients[c].file == s.clients[c].file
    requires P.Inv(s'.pool) && s'.pool.stop == s.pool.stop && s'.pool.workers == s.pool.workers
    requires s'.pool.done == s.pool.done
    requires forall k :: 0 <= k < |s.clients| && k != c ==>
               s'.clients[k] == s.clients[k] && s'.views[k] == s.views[k] && s'.pool.clients[k] == s.pool.clients[k]
    requires ClientOk(L, s', c)
    requires s'.views[c].tasks == s.views[c].tasks || (s.views[c].tasks == [] && Untouched(s'.views[c]))
    requires s.clients[c].phase == Working ==> s'.clients[c].phase == Working || s'.clients[c].phase == Waiting
    requires s.clients[c].phase != Waiting
    requires forall j: Job :: j in s'.pool.accepted ==> j in s.pool.accepted || (ValidJob(s', j) && j.c == c)
    requires forall j: Job :: j in s.pool.accepted ==> j in s'.pool.accepted
    requires forall i: nat :: Accepted(s', c, i)
    ensures Inv(L, s')
  {
    hide R.Inv, P.Inv, HeldFile;
    forall k: nat ensures ClientOk(L, s', k) {
      assert ClientOk(L, s, k);
    }
    forall j: Job ensures Owned(s', j) {
      assert Owned(s, j);
      if w :| Runs(s, w, j) {
        assert Runs(s', w, j);
      }
    }
    forall j: Job | j in s'.pool.accepted ensures ValidJob(s', j) {
      assert j in s.pool.accepted ==> ValidJob(s, j);
    }
    forall j: Job | FinishedJob(s, j) ensures FinishedJob(s', j) {
    }
    forall w: nat ensures ReturnedOk(s', w) {
      assert ReturnedOk(s, w);
    }
    forall k: nat, i: nat ensures Accepted(s', k, i) {
      assert Accepted(s, k, i);
    }
  }

  lemma MetaLockInv(L: Layout, writersFirst: bool, s: Joint, c: nat)
    requires Inv(L, s) && Enabled(writersFirst, s, MetaLock(c))
    ensures Inv(L, Next(L, s, MetaLock(c)))
  {
    assert ClientOk(L, s, c);
    hide R.Inv, P.Inv, HeldFile;
    ClientMoves(L, s, Next(L, s, MetaLock(c)), c);
  }

  lemma MetaUnlockInv(L: Layout, writersFirst: bool, s: Joint, c: nat)
    requires Inv(L, s) && Enabled(writersFirst, s, MetaUnlock(c))
    ensures Inv(L, Next(L, s, MetaUnlock(c)))
  {
    assert ClientOk(L, s, c);
    var cl, f := s.clients[c], s.views[c].file;
    R.InitInv(L, Fc(L, cl), f, R.Tasks(L, f, cl.size, cl.off));
    InitTasks(f, R.Tasks(L, f, cl.size, cl.off));
    assert s.views[c].tasks == [];
    hide R.Inv, P.Inv, HeldFile, R.Init, R.Tasks, Fc;
    forall i: nat ensures Accepted(Next(L, s, MetaUnlock(c)), c, i) {
    }
    ClientMoves(L, s, Next(L, s, MetaUnlock(c)), c);
  }

  lemma PushInv(L: Layout, writersFirst: bool, s: Joint, c: nat)
    requires Inv(L, s) && Enabled(writersFirst, s, Push(c))
    ensures Inv(L, Next(L, s, Push(c)))
  {
    assert ClientOk(L, s, c);
    NotJoined(s.pool);
    var e := P.Push(c, Job(c, s.clients[c].pushed));
    P.NextInv(s.pool, e);
    hide R.Inv, P.Inv, HeldFile;
    var s' := Next(L, s, Push(c));
    assert s'.pool.accepted == s.pool.accepted + [Job(c, s.clients[c].pushed)];
    forall i: nat ensures Accepted(s', c, i) {
      assert Accepted(s, c, i);
    }
    ClientMoves(L, s, s', c);
  }

  lemma NotJoined(p: P.Pool<Job>)
    requires P.Inv(p) && !p.stop
    ensures p.dtor == P.NotBegun && !p.late
  {
    assert !P.AllExited(p.workers) by {
      assert p.workers[0] in p.workers;
    }
  }

  lemma CallWaitInv(L: Layout, writersFirst: bool, s: Joint, c: nat)
    requires Inv(L, s) && Enabled(writersFirst, s, CallWait(c))
    ensures Inv(L, Next(L, s, CallWait(c)))
  {
    assert ClientOk(L, s, c);
    NotJoined(s.pool);
    P.NextInv(s.pool, P.CallWait(c));
    hide R.Inv, P.Inv, HeldFile;
    forall i: nat ensures Accepted(Next(L, s, CallWait(c)), c, i) {
      assert Accepted(s, c, i);
    }
    ClientMoves(L, s, Next(L, s, CallWait(c)), c);
  }

  // ---------------------------------------------------------------- writers keep the invariant

  predicate WriterKind(e: R.Event)
  {
    e.WriterLock? || e.WriterStore? || e.WriterRemove? || e.WriterSave? || e.WriterUnlock?
  }

  lemma WriterFacts(L: Layout, fc: nat, r: R.Read, e: R.Event)
    requires R.Inv(L, fc, r) && WriterKind(e) && R.Enabled(r, e)
    ensures var r' := ReadNext(L, fc, r, e);
            && R.Inv(L, fc, r') && r'.tasks == r.tasks
            && r'.writer == !e.WriterUnlock? && r'.versions[0] == r.versions[0]
  {
    R.WriterStepInv(L, fc, r, e);
  }

  /** A writer of file `g` moves on, and every view of the file sees it. */
  lemma WriterMoves(L: Layout, s: Joint, x: nat, w: Writer, e: R.Event)
    requires Inv(L, s) && x < |s.writers| && WriterKind(e) && w.file == s.writers[x].file
    requires w.pc == Inside <==> !e.WriterUnlock?
    requires e.WriterLock? ==> s.writers[x].pc == Pending && Free(s, w.file)
    requires !e.WriterLock? ==> s.writers[x].pc == Inside
    ensures Inv(L, s.(writers := s.writers[x := w], views := SeenByAll(L, s, w.file, e)))
  {
    var s' := s.(writers := s.writers[x := w], views := SeenByAll(L, s, w.file, e));
    HeldAfter(s, x, w, e);
    hide R.Inv, P.Inv, ReadNext, R.Enabled;
    forall c: nat ensures ClientOk(L, s', c) {
      assert ClientOk(L, s, c);
      if c < |s.clients| && s.clients[c].file == w.file {
        WriterEnabled(L, s, c, x, w, e);
        WriterFacts(L, Fc(L, s.clients[c]), s.views[c], e);
      }
    }
    hide HeldFile, Free, SeenByAll;
    assert forall c: nat :: c < |s.views| ==> s'.views[c].tasks == s.views[c].tasks by {
      SameTasks(L, s, x, w, e);
    }
    forall j: Job ensures Owned(s', j) {
      assert Owned(s, j);
      if v :| Runs(s, v, j) {
        assert Runs(s', v, j);
      }
    }
    forall j: Job | FinishedJob(s, j) ensures FinishedJob(s', j) {
    }
    forall v: nat ensures ReturnedOk(s', v) {
      assert ReturnedOk(s, v);
    }
    forall c: nat, i: nat ensures Accepted(s', c, i) {
      assert Accepted(s, c, i);
    }
    assert forall j: Job :: ValidJob(s, j) ==> ValidJob(s', j);
  }

  /** Who holds which file after a writer's step. */
  lemma HeldAfter(s: Joint, x: nat, w: Writer, e: R.Event)
    requires x < |s.writers| && OneInside(s.writers) && w.file == s.writers[x].file && WriterKind(e)
    requires w.pc == Inside <==> !e.WriterUnlock?
    requires e.WriterLock? ==> s.writers[x].pc == Pending && Free(s, w.file)
    requires !e.WriterLock? ==> s.writers[x].pc == Inside
    ensures forall g :: g != w.file ==> (HeldFile(s.writers[x := w], g) <==> HeldFile(s.writers, g))
    ensures HeldFile(s.writers[x := w], w.file) <==> !e.WriterUnlock?
    ensures HeldFile(s.writers, w.file) <==> !e.WriterLock?
    ensures OneInside(s.writers[x := w])
  {
    var ws := s.writers[x := w];
    forall g | g != w.file ensures HeldFile(ws, g) <==> HeldFile(s.writers, g) {
      if HeldFile(ws, g) {
        var y :| 0 <= y < |ws| && ws[y].pc == Inside && ws[y].file == g;
        assert s.writers[y] == ws[y];
      }
      if HeldFile(s.writers, g) {
        var y :| 0 <= y < |ws| && s.writers[y].pc == Inside && s.writers[y].file == g;
        assert s.writers[y] == ws[y];
      }
    }
    if e.WriterUnlock? {
      forall y: nat | y < |ws| && ws[y].pc == Inside ensures ws[y].file != w.file {
        assert InsideAt(s.writers, y) && InsideAt(s.writers, x);
      }
    } else {
      assert ws[x].pc == Inside;
    }
    if !e.WriterLock? {
      assert HeldFile(s.writers, w.file);
    }
    forall y: nat, z: nat | InsideAt(ws, y) && InsideAt(ws, z) && ws[y].file == ws[z].file ensures y == z {
      assert y != x ==> InsideAt(s.writers, y);
      assert z != x ==> InsideAt(s.writers, z);
      assert !e.WriterLock? ==> InsideAt(s.writers, x);
    }
  }

  lemma WriterEnabled(L: Layout, s: Joint, c: nat, x: nat, w: Writer, e: R.Event)
    requires ClientOk(L, s, c) && c < |s.clients| && c < |s.views| && c < |s.pool.clients|
    requires s.clients[c].file == w.file
    requires WriterKind(e) && (HeldFile(s.writers, w.file) <==> !e.WriterLock?)
    requires e.WriterLock? ==> Free(s, w.file)
    ensures R.Enabled(s.views[c], e)
    ensures e.WriterLock? ==> s.clients[c].phase != Loading
  {
    hide R.Inv, HeldFile;
  }

  lemma SameTasks(L: Layout, s: Joint, x: nat, w: Writer, e: R.Event)
    requires WriterKind(e)
    ensures forall c: nat :: c < |s.views| ==> SeenByAll(L, s, w.file, e)[c].tasks == s.views[c].tasks
  {
    hide R.Enabled, Decoded;
  }

  lemma WriterEventInv(L: Layout, writersFirst: bool, s: Joint, e: Event)
    requires Inv(L, s) && Enabled(writersFirst, s, e) && (e.WriterLock? || e.WriterEdit? || e.WriterUnlock?)
    ensures Inv(L, Next(L, s, e))
  {
    hide Inv, SeenByAll, Free;
    var w := s.writers[e.x];
    match e
    case WriterLock(x) => WriterMoves(L, s, x, w.(pc := Inside), R.WriterLock);
    case WriterEdit(x) => WriterMoves(L, s, x, w.(script := w.script[1..]), EditEvent(w.script[0]));
    case WriterUnlock(x) => WriterMoves(L, s, x, w.(pc := Gone), R.WriterUnlock);
  }

  /** Every step keeps the invariant, whichever policy the locks have. */
  lemma NextInv(L: Layout, writersFirst: bool, s: Joint, e: Event)
    requires Inv(L, s) && Enabled(writersFirst, s, e)
    ensures Inv(L, Next(L, s, e))
  {
    hide Inv, Next;
    match e
    case MetaLock(c) => MetaLockInv(L, writersFirst, s, c);
    case MetaUnlock(c) => MetaUnlockInv(L, writersFirst, s, c);
    case Push(c) => PushInv(L, writersFirst, s, c);
    case CallWait(c) => CallWaitInv(L, writersFirst, s, c);
    case Pool(pe) => PoolEventInv(L, writersFirst, s, pe);
    case Work(w) =>
      if FinishedJob(s, s.pool.workers[w].t) {
        ReturnInv(L, writersFirst, s, w);
      } else {
        TaskMoves(L, writersFirst, s, w);
      }
    case WriterLock(_) => WriterEventInv(L, writersFirst, s, e);
    case WriterEdit(_) => WriterEventInv(L, writersFirst, s, e);
    case WriterUnlock(_) => WriterEventInv(L, writersFirst, s, e);
  }

  /** An edit is seen by every read of the file, and by no other. */
  lemma EditDoes(L: Layout, writersFirst: bool, s: Joint, x: nat, c: nat)
    requires Inv(L, s) && Enabled(writersFirst, s, WriterEdit(x)) && c < |s.clients|
    ensures c < |s.views| && c < |Next(L, s, WriterEdit(x)).views|
    ensures var f, g := s.views[c].file, Next(L, s, WriterEdit(x)).views[c].file;
            g == if s.clients[c].file != s.writers[x].file then f
                 else
                   match s.writers[x].script[0]
                   case Store(ci, blob) => f.(blobs := f.blobs[ci := blob])
                   case Remove(ci) => f.(blobs := Without(f.blobs, ci))
                   case Save(size, n, csize) => File(size, n, csize, f.blobs)
  {
    assert ClientOk(L, s, c);
    hide P.Inv, R.Inv, Untouched;
  }

  ghost predicate Run(L: Layout, writersFirst: bool, s: Joint, es: seq<Event>)
    decreases |es|
  {
    es == [] || (Enabled(writersFirst, s, es[0]) && Run(L, writersFirst, Next(L, s, es[0]), es[1..]))
  }

  ghost function After(L: Layout, writersFirst: bool, s: Joint, es: seq<Event>): Joint
    requires Run(L, writersFirst, s, es)
    decreases |es|
  {
    if es == [] then s else After(L, writersFirst, Next(L, s, es[0]), es[1..])
  }

  lemma {:induction false} RunInv(L: Layout, writersFirst: bool, s: Joint, es: seq<Event>)
    requires Inv(L, s) && SharedFiles(s) && Run(L, writersFirst, s, es)
    ensures Inv(L, After(L, writersFirst, s, es)) && SharedFiles(After(L, writersFirst, s, es))
    decreases |es|
  {
    hide Inv, Enabled, Next, SharedFiles;
    if es != [] {
      NextInv(L, writersFirst, s, es[0]);
      NextShares(L, writersFirst, s, es[0]);
      RunInv(L, writersFirst, Next(L, s, es[0]), es[1..]);
    }
  }

  predicate SameFile(s: Joint, c: nat, d: nat)
  {
    && c < |s.views| && d < |s.views| && c < |s.clients| && d < |s.clients|
    && s.clients[c].file == s.clients[d].file
  }

  /** Views of one file show one file. */
  ghost predicate SharedFiles(s: Joint)
  {
    forall c: nat, d: nat :: SameFile(s, c, d) ==> s.views[c].file == s.views[d].file
  }

  lemma SharedFilesIs(s: Joint)
    requires |s.views| == |s.clients|
    ensures SharedFiles(s) <==>
            forall c, d :: 0 <= c < |s.clients| && 0 <= d < |s.clients| && s.clients[c].file == s.clients[d].file ==>
              s.views[c].file == s.views[d].file
  {
    if SharedFiles(s) {
      forall c, d | 0 <= c < |s.clients| && 0 <= d < |s.clients| && s.clients[c].file == s.clients[d].file
        ensures s.views[c].file == s.views[d].file
      {
        assert SameFile(s, c, d);
      }
    }
  }

  lemma InitShares(workers: nat, files: nat -> File, clients: seq<Client>, writers: seq<Writer>)
    ensures SharedFiles(Init(workers, files, clients, writers))
  {
    forall c: nat | c < |clients|
      ensures Init(workers, files, clients, writers).views[c].file == files(clients[c].file)
    {
      InitFile(files(clients[c].file), 0);
    }
    hide R.Init, P.Init;
  }

  lemma TaskKeepsFile(L: Layout, fc: nat, r: R.Read, pc: R.TaskPc, i: nat)
    ensures ReadNext(L, fc, r, TaskStep(pc, i)).file == r.file
  {
    hide Decoded, R.Enabled;
  }

  /** The file after a writer's step. */
  function FileAfter(f: File, e: R.Event): File
  {
    match e
    case WriterStore(ci, blob) => f.(blobs := f.blobs[ci := blob])
    case WriterRemove(ci) => f.(blobs := Without(f.blobs, ci))
    case WriterSave(size, n, csize) => f.(size := size, n := n, csize := csize)
    case _ => f
  }

  lemma WriterChangesFile(L: Layout, fc: nat, r: R.Read, e: R.Event)
    requires R.Inv(L, fc, r) && WriterKind(e) && R.Enabled(r, e)
    ensures ReadNext(L, fc, r, e).file == FileAfter(r.file, e)
  {
  }

  lemma WritersShare(L: Layout, s: Joint, x: nat, w: Writer, e: R.Event)
    requires Inv(L, s) && SharedFiles(s) && x < |s.writers| && WriterKind(e) && w.file == s.writers[x].file
    requires w.pc == Inside <==> !e.WriterUnlock?
    requires e.WriterLock? ==> s.writers[x].pc == Pending && Free(s, w.file)
    requires !e.WriterLock? ==> s.writers[x].pc == Inside
    ensures SharedFiles(s.(writers := s.writers[x := w], views := SeenByAll(L, s, w.file, e)))
  {
    HeldAfter(s, x, w, e);
    var views := SeenByAll(L, s, w.file, e);
    hide R.Inv, P.Inv, ReadNext, R.Enabled, HeldFile, Free;
    forall c: nat | c < |s.views|
      ensures views[c].file == if s.clients[c].file == w.file then FileAfter(s.views[c].file, e) else s.views[c].file
    {
      assert ClientOk(L, s, c);
      if s.clients[c].file == w.file {
        WriterEnabled(L, s, c, x, w, e);
        WriterChangesFile(L, Fc(L, s.clients[c]), s.views[c], e);
      }
    }
  }

  lemma NextShares(L: Layout, writersFirst: bool, s: Joint, e: Event)
    requires Inv(L, s) && SharedFiles(s) && Enabled(writersFirst, s, e)
    ensures SharedFiles(Next(L, s, e))
  {
    hide Inv, SeenByAll, Free, ReadNext, HeldFile, R.Init, PoolNext;
    if e.Work? {
      var j := s.pool.workers[e.w].t;
      TaskKeepsFile(L, Fc(L, s.clients[j.c]), s.views[j.c], s.views[j.c].tasks[j.i], j.i);
    } else if e.MetaUnlock? {
      var cl, f := s.clients[e.c], s.views[e.c].file;
      InitFile(f, R.Tasks(L, f, cl.size, cl.off));
    } else if e.WriterLock? {
      WritersShare(L, s, e.x, s.writers[e.x].(pc := Inside), R.WriterLock);
    } else if e.WriterEdit? {
      var w := s.writers[e.x];
      WritersShare(L, s, e.x, w.(script := w.script[1..]), EditEvent(w.script[0]));
    } else if e.WriterUnlock? {
      WritersShare(L, s, e.x, s.writers[e.x].(pc := Gone), R.WriterUnlock);
    }
  }

  lemma InitFile(f: File, nc: nat)
    ensures R.Init(f, nc).file == f
  {
  }

  // ---------------------------------------------------------------- what a returning read has

  /** The test in `wait_all` that lets client `c` go. */
  ghost predicate Returns(L: Layout, s: Joint, c: nat)
  {
    && P.Enabled(s.pool, P.TestDone(c))
    && P.Next(s.pool, P.TestDone(c)).clients[c] == P.Idle
  }

  /** It does exactly when every task that was accepted has completed. */
  lemma ReturnsIff(L: Layout, s: Joint, c: nat)
    requires Inv(L, s) && c < |s.clients|
    ensures Returns(L, s, c) <==> P.Enabled(s.pool, P.TestDone(c)) && s.pool.done == multiset(s.pool.accepted)
  {
    hide P.Inv, P.Enabled, P.Next;
    if P.Enabled(s.pool, P.TestDone(c)) {
      P.WaitReturns(s.pool, c);
    }
  }

  /** Of a finished read: where its chunks or its error are from, and when its result is that of one file. */
  ghost predicate Settled(L: Layout, r: R.Read, size: nat, off: nat)
  {
    && R.Shaped(r) && R.AllFinished(r) && |r.tasks| == R.Tasks(L, r.versions[0], size, off)
    && (!r.err ==> forall i: nat :: i < |r.tasks| ==> R.FromOneVersion(L, off / L.C, r, i))
    && (r.err ==> exists k: nat, i: nat :: R.Gives(L, off / L.C, r, k, i, None))
    && (|r.tasks| <= 1 ==> exists k: nat :: R.HasVersion(L, r, k, size, off))
    && (|r.versions| == 1 ==> R.Result(L, r, size, off) == ReadFile(L, r.versions[0], size, off))
  }

  /**
   When `wait_all` lets a read go, all its tasks have finished, and no worker runs or has just run a task of anyone.
   So every chunk it holds is from one version of its file since it loaded the record, and with at most one chunk the
   result is that of one version under the clamp of the record. If no writer has completed since, it is the sequential
   one.
   */
  lemma ReturnedRead(L: Layout, s: Joint, c: nat)
    requires Inv(L, s) && c < |s.clients| && Returns(L, s, c)
    ensures forall w :: 0 <= w < |s.pool.workers| ==> !s.pool.workers[w].Running? && !s.pool.workers[w].Returned?
    ensures Settled(L, s.views[c], s.clients[c].size, s.clients[c].off)
  {
    P.WaitReturns(s.pool, c);
    assert ClientOk(L, s, c);
    var r, cl := s.views[c], s.clients[c];
    hide P.Inv, P.Enabled, P.Next, R.Tasks;
    forall i: nat | i < cl.nc ensures r.tasks[i] == R.Finished {
      assert Accepted(s, c, i);
      assert Job(c, i) in s.pool.done;
      assert FinishedJob(s, Job(c, i));
    }
    hide HeldFile, R.Result, ReadFile, R.HasVersion;
    ShapedFrom(L, Fc(L, cl), r);
    R.FinishedChunks(L, Fc(L, cl), r);
    if |r.versions| == 1 {
      R.FinishedAlone(L, r, cl.size, cl.off);
    }
    if |r.tasks| <= 1 {
      R.FinishedOne(L, r, cl.size, cl.off);
    }
  }

  /** So a read of one chunk that `wait_all` lets go is a snapshot, if no writer has changed its clamp. */
  lemma ReturnedSnapshot(L: Layout, s: Joint, c: nat)
    requires Inv(L, s) && c < |s.clients| && Returns(L, s, c) && |s.views[c].tasks| <= 1 && 0 < s.clients[c].size
    requires S.KeepsClamp(s.views[c].versions, s.clients[c].size, s.clients[c].off)
    ensures S.Snapshot(L, s.views[c], s.clients[c].size, s.clients[c].off)
  {
    var r, cl := s.views[c], s.clients[c];
    hide Inv, Returns, R.Tasks, R.Result, ReadFile, R.ReadAs, R.Want, R.AllFinished;
    ReturnedRead(L, s, c);
    var k: nat :| R.HasVersion(L, r, k, cl.size, cl.off);
    S.SameClamp(L, r.versions[k], r.versions[0], cl.size, cl.off);
    assert S.ReadsVersion(L, r, k, cl.size, cl.off);
  }

  // ---------------------------------------------------------------- progress

  /** The steps that are no spurious wake-up. */
  predicate Internal(e: Event)
  {
    e.Pool? ==> !e.e.SpuriousWorker? && !e.e.SpuriousClient?
  }

  function ClientTodo(n: nat): Client -> nat
  {
    (cl: Client) =>
      var pushes := if cl.pushed <= cl.nc then (cl.nc - cl.pushed) * (n + 6) else 0;
      match cl.phase
      case Start => (cl.size + 1) * (n + 10) + 5
      case Loading => (cl.size + 1) * (n + 10) + 4
      case Working => pushes + 3
      case Waiting => 0
  }

  function WriterTodo(w: Writer): nat
  {
    match w.pc
    case Pending => |w.script| + 2
    case Inside => |w.script| + 1
    case Gone => 0
  }

  function ViewTodo(r: R.Read): nat
  {
    R.Rank(r.tasks)
  }

  /** What is left to do: the pool's rank, pushes to come, steps of tasks, and the writers' scripts. */
  function Rank(s: Joint): nat
  {
    P.Rank(s.pool) + P.Weight(s.clients, ClientTodo(|s.clients|)) + P.Weight(s.views, ViewTodo)
    + P.Weight(s.writers, WriterTodo)
  }

  lemma PoolRankFalls(L: Layout, writersFirst: bool, s: Joint, e: P.Event<Job>)
    requires Inv(L, s) && Enabled(writersFirst, s, Pool(e)) && Internal(Pool(e))
    ensures Rank(Next(L, s, Pool(e))) < Rank(s)
  {
    PoolSteps(s.pool, e);
    P.StepRank(s.pool, e);
    hide P.Rank, P.Weight, P.Inv, P.Next, P.Enabled;
  }

  lemma WorkRankFalls(L: Layout, writersFirst: bool, s: Joint, w: nat)
    requires Inv(L, s) && Enabled(writersFirst, s, Work(w))
    ensures Rank(Next(L, s, Work(w))) < Rank(s)
  {
    var j := s.pool.workers[w].t;
    var pc := s.views[j.c].tasks[j.i];
    assert ClientOk(L, s, j.c);
    if pc == R.Finished {
      P.StepRank(s.pool, P.Return(w));
      hide P.Rank, P.Weight, P.Inv, P.Next, HeldFile, R.Inv;
    } else {
      var r := s.views[j.c];
      var e := TaskStep(pc, j.i);
      ShapedFrom(L, Fc(L, s.clients[j.c]), r);
      hide P.Rank, P.Inv, P.Next, R.Inv, R.Rank;
      R.StepRank(L, Fc(L, s.clients[j.c]), r, e);
      P.WeightUpdate(s.views, j.c, R.Next(L, Fc(L, s.clients[j.c]), r, e), ViewTodo);
      hide P.Weight, R.Next;
    }
  }

  lemma PushRankFalls(L: Layout, writersFirst: bool, s: Joint, c: nat)
    requires Inv(L, s) && Enabled(writersFirst, s, Push(c))
    ensures Rank(Next(L, s, Push(c))) < Rank(s)
  {
    var n, cl := |s.clients|, s.clients[c];
    NotJoined(s.pool);
    P.PushRank(s.pool, c, Job(c, cl.pushed));
    OnePushLess(n, cl);
    hide P.Rank, P.Weight, Inv, ClientTodo, Rank;
    ClientRankFalls(s, Next(L, s, Push(c)), c, cl.(pushed := cl.pushed + 1), n + 5);
  }

  lemma OnePushLess(n: nat, cl: Client)
    requires cl.phase == Working && cl.pushed < cl.nc
    ensures ClientTodo(n)(cl) == ClientTodo(n)(cl.(pushed := cl.pushed + 1)) + n + 6
  {
    assert (cl.nc - cl.pushed) * (n + 6) == (cl.nc - (cl.pushed + 1)) * (n + 6) + (n + 6);
  }

  lemma PhaseTodo(n: nat, cl: Client)
    ensures cl.phase == Start ==> ClientTodo(n)(cl.(phase := Loading)) < ClientTodo(n)(cl)
    ensures cl.phase == Loading && cl.pushed == 0 ==>
              forall nc :: 0 <= nc <= cl.size + 1 ==>
                ClientTodo(n)(cl.(phase := Working, nc := nc)) + 4 * nc < ClientTodo(n)(cl)
    ensures cl.phase == Working && cl.pushed == cl.nc ==> ClientTodo(n)(cl.(phase := Waiting)) + 3 == ClientTodo(n)(cl)
  {
    assert cl.pushed == cl.nc ==> (cl.nc - cl.pushed) * (n + 6) == 0;
    forall nc | 0 <= nc <= cl.size + 1 ensures nc * (n + 6) + 4 * nc <= (cl.size + 1) * (n + 10) {
      assert nc * (n + 10) <= (cl.size + 1) * (n + 10);
    }
  }

  /** A client's step, as far as the rank sees it. */
  lemma ClientRankFalls(s: Joint, s': Joint, c: nat, cl: Client, more: nat)
    requires c < |s.clients| && s'.clients == s.clients[c := cl] && s'.writers == s.writers
    requires P.Rank(s'.pool) + P.Weight(s'.views, ViewTodo) == P.Rank(s.pool) + P.Weight(s.views, ViewTodo) + more
    requires ClientTodo(|s.clients|)(cl) + more < ClientTodo(|s.clients|)(s.clients[c])
    ensures Rank(s') < Rank(s)
  {
    hide P.Rank, ClientTodo;
    P.WeightUpdate(s.clients, c, cl, ClientTodo(|s.clients|));
    hide P.Weight;
  }

  lemma MetaLockRankFalls(L: Layout, writersFirst: bool, s: Joint, c: nat)
    requires Inv(L, s) && Enabled(writersFirst, s, MetaLock(c))
    ensures Rank(Next(L, s, MetaLock(c))) < Rank(s)
  {
    hide P.Rank, P.Weight, Inv, HeldFile, ClientTodo, Rank, CanShare;
    PhaseTodo(|s.clients|, s.clients[c]);
    ClientRankFalls(s, Next(L, s, MetaLock(c)), c, s.clients[c].(phase := Loading), 0);
  }

  /** The tasks that a loaded record brings are fewer than the size of the request lets expect. */
  lemma MetaUnlockRankFalls(L: Layout, writersFirst: bool, s: Joint, c: nat)
    requires Inv(L, s) && Enabled(writersFirst, s, MetaUnlock(c))
    ensures Rank(Next(L, s, MetaUnlock(c))) < Rank(s)
  {
    var cl, f := s.clients[c], s.views[c].file;
    var nc, r := R.Tasks(L, f, cl.size, cl.off), R.Start(L, f, cl.size, cl.off);
    LoadingHasNone(L, s, c);
    StartRank(L, f, cl.size, cl.off);
    P.WeightUpdate(s.views, c, r, ViewTodo);
    hide P.Rank, P.Weight, Inv, HeldFile, ClientTodo, Rank, CanShare, R.Tasks, R.Start, R.Rank;
    PhaseTodo(|s.clients|, cl);
    R.TasksBound(L, f, cl.size, cl.off);
    ClientRankFalls(s, Next(L, s, MetaUnlock(c)), c, cl.(phase := Working, nc := nc), 4 * nc);
  }

  lemma LoadingHasNone(L: Layout, s: Joint, c: nat)
    requires Inv(L, s) && ClientIn(s, c, Loading)
    ensures s.clients[c].pushed == 0 && ViewTodo(s.views[c]) == 0
  {
    assert ClientOk(L, s, c);
    hide R.Inv, P.Inv, HeldFile;
    assert s.views[c].tasks == [];
  }

  lemma StartRank(L: Layout, f: File, size: nat, off: nat)
    ensures ViewTodo(R.Start(L, f, size, off)) == 4 * R.Tasks(L, f, size, off)
  {
    FreshRank(R.Start(L, f, size, off).tasks);
    hide R.Tasks, R.Rank;
  }

  lemma {:induction false} FreshRank(ts: seq<R.TaskPc>)
    requires forall i :: 0 <= i < |ts| ==> ts[i] == R.NotStarted
    ensures R.Rank(ts) == 4 * |ts|
  {
    if ts != [] {
      FreshRank(ts[1..]);
    }
  }

  lemma CallWaitRankFalls(L: Layout, writersFirst: bool, s: Joint, c: nat)
    requires Inv(L, s) && Enabled(writersFirst, s, CallWait(c))
    ensures Rank(Next(L, s, CallWait(c))) < Rank(s)
  {
    NotJoined(s.pool);
    P.CallWaitRank(s.pool, c);
    PhaseTodo(|s.clients|, s.clients[c]);
    hide P.Rank, P.Weight, Inv, ClientTodo, Rank;
    ClientRankFalls(s, Next(L, s, CallWait(c)), c, s.clients[c].(phase := Waiting), 2);
  }

  lemma WriterRankFalls(L: Layout, writersFirst: bool, s: Joint, e: Event)
    requires Inv(L, s) && Enabled(writersFirst, s, e) && (e.WriterLock? || e.WriterEdit? || e.WriterUnlock?)
    ensures Rank(Next(L, s, e)) < Rank(s)
  {
    var s', w := Next(L, s, e), s.writers[e.x];
    P.WeightUpdate(s.writers, e.x, s'.writers[e.x], WriterTodo);
    var ev := if e.WriterLock? then R.WriterLock else if e.WriterEdit? then EditEvent(w.script[0]) else R.WriterUnlock;
    SameTasks(L, s, e.x, w, ev);
    P.WeightSame(s.views, s'.views, ViewTodo);
    hide P.Rank, P.Weight, P.Inv, R.Inv, R.Rank, HeldFile, SeenByAll, Inv;
  }

  /** Every step that is no spurious wake-up makes the rank smaller. */
  lemma StepRank(L: Layout, writersFirst: bool, s: Joint, e: Event)
    requires Inv(L, s) && Enabled(writersFirst, s, e) && Internal(e)
    ensures Rank(Next(L, s, e)) < Rank(s)
  {
    hide Inv, Next, Rank;
    match e
    case MetaLock(c) => MetaLockRankFalls(L, writersFirst, s, c);
    case MetaUnlock(c) => MetaUnlockRankFalls(L, writersFirst, s, c);
    case Push(c) => PushRankFalls(L, writersFirst, s, c);
    case CallWait(c) => CallWaitRankFalls(L, writersFirst, s, c);
    case Pool(pe) => PoolRankFalls(L, writersFirst, s, pe);
    case Work(w) => WorkRankFalls(L, writersFirst, s, w);
    case WriterLock(_) => WriterRankFalls(L, writersFirst, s, e);
    case WriterEdit(_) => WriterRankFalls(L, writersFirst, s, e);
    case WriterUnlock(_) => WriterRankFalls(L, writersFirst, s, e);
  }

  ghost predicate InternalRun(es: seq<Event>)
  {
    forall i :: 0 <= i < |es| ==> Internal(es[i])
  }

  /** Every schedule comes to rest within the rank. */
  lemma {:induction false} RunIsBounded(L: Layout, writersFirst: bool, s: Joint, es: seq<Event>)
    requires Inv(L, s) && Run(L, writersFirst, s, es) && InternalRun(es)
    ensures |es| + Rank(After(L, writersFirst, s, es)) <= Rank(s)
    decreases |es|
  {
    hide Inv, Next, Rank, Enabled;
    if es != [] {
      assert Internal(es[0]);
      StepRank(L, writersFirst, s, es[0]);
      NextInv(L, writersFirst, s, es[0]);
      RunIsBounded(L, writersFirst, Next(L, s, es[0]), es[1..]);
    }
  }

  // ---------------------------------------------------------------- no deadlock

  ghost predicate AtRest(writersFirst: bool, s: Joint)
  {
    forall e :: Internal(e) ==> !Enabled(writersFirst, s, e)
  }

  /** No writer is inside, for it could always go on. */
  lemma RestingInside(L: Layout, writersFirst: bool, s: Joint)
    requires AtRest(writersFirst, s)
    ensures forall x: nat :: !WriterIn(s, x, Inside)
    ensures forall g :: !HeldFile(s.writers, g)
  {
    forall x: nat ensures !WriterIn(s, x, Inside) {
      assert !Enabled(writersFirst, s, WriterEdit(x)) && !Enabled(writersFirst, s, WriterUnlock(x));
    }
    forall x: nat | x < |s.writers| ensures s.writers[x].pc != Inside {
      assert !WriterIn(s, x, Inside);
    }
  }

  /** No task is under way inside the lock, for its worker could go on; and no client is loading. */
  lemma RestingReaders(L: Layout, writersFirst: bool, s: Joint)
    requires Inv(L, s) && AtRest(writersFirst, s)
    ensures forall c: nat :: !ClientIn(s, c, Loading)
    ensures forall j: Job :: HasTask(s, j) ==> s.views[j.c].tasks[j.i] != R.Locked && s.views[j.c].tasks[j.i] != R.Sized
  {
    forall c: nat ensures !ClientIn(s, c, Loading) {
      assert !Enabled(writersFirst, s, MetaUnlock(c));
    }
    forall j: Job | HasTask(s, j)
      ensures s.views[j.c].tasks[j.i] != R.Locked && s.views[j.c].tasks[j.i] != R.Sized
    {
      assert Owned(s, j);
      assert forall w: nat :: Runs(s, w, j) ==> !Enabled(writersFirst, s, Work(w));
    }
  }

  /** No writer is waiting either, since nobody holds a lock. */
  lemma RestingWriters(L: Layout, writersFirst: bool, s: Joint)
    requires Inv(L, s) && AtRest(writersFirst, s)
    ensures forall x :: 0 <= x < |s.writers| ==> s.writers[x].pc == Gone
    ensures forall g :: CanShare(writersFirst, s, g)
  {
    RestingInside(L, writersFirst, s);
    RestingReaders(L, writersFirst, s);
    hide P.Inv, R.Inv, HeldFile;
    forall x: nat | x < |s.writers| ensures s.writers[x].pc == Gone {
      assert !WriterIn(s, x, Inside);
      assert !Enabled(writersFirst, s, WriterLock(x));
      FreeAtRest(L, s, s.writers[x].file);
    }
  }

  lemma FreeAtRest(L: Layout, s: Joint, g: nat)
    requires !HeldFile(s.writers, g) && |s.clients| == |s.views| == |s.pool.clients|
    requires forall c: nat :: !ClientIn(s, c, Loading)
    requires forall j: Job :: HasTask(s, j) ==> s.views[j.c].tasks[j.i] != R.Locked && s.views[j.c].tasks[j.i] != R.Sized
    ensures Free(s, g)
  {
    hide HeldFile;
    forall c: nat | c < |s.clients|
      ensures s.clients[c].phase != Loading && R.Locked !in s.views[c].tasks && R.Sized !in s.views[c].tasks
    {
      assert !ClientIn(s, c, Loading);
      forall i: nat | i < |s.views[c].tasks| ensures s.views[c].tasks[i] != R.Locked && s.views[c].tasks[i] != R.Sized {
        assert HasTask(s, Job(c, i));
      }
    }
  }

  /** So no worker is held up, and none runs. */
  lemma RestingWorkers(L: Layout, writersFirst: bool, s: Joint)
    requires Inv(L, s) && AtRest(writersFirst, s)
    ensures forall w :: 0 <= w < |s.pool.workers| ==> s.pool.workers[w] == P.Waiting
  {
    RestingWriters(L, writersFirst, s);
    hide P.Inv, R.Inv, HeldFile, CanShare;
    forall w: nat | w < |s.pool.workers| ensures s.pool.workers[w] == P.Waiting {
      WorkerAtRest(L, writersFirst, s, w);
    }
  }

  lemma WorkerAtRest(L: Layout, writersFirst: bool, s: Joint, w: nat)
    requires Inv(L, s) && AtRest(writersFirst, s) && w < |s.pool.workers|
    requires forall g :: CanShare(writersFirst, s, g)
    ensures s.pool.workers[w] == P.Waiting
  {
    assert !Enabled(writersFirst, s, Work(w));
    assert !Enabled(writersFirst, s, Pool(P.Test(w))) && !Enabled(writersFirst, s, Pool(P.Finish(w)));
    NoneExited(s.pool, w);
    if s.pool.workers[w].Running? {
      P.AllAccepted(s.pool, s.pool.workers[w].t);
    }
    hide P.Inv, R.Inv, HeldFile, CanShare;
  }

  lemma NoneExited(p: P.Pool<Job>, w: nat)
    requires P.Inv(p) && !p.stop && w < |p.workers|
    ensures p.workers[w] != P.Exited
  {
    assert p.workers[w] in p.workers;
  }

  /** With every worker asleep, nothing is queued and no caller sleeps in `wait_all`. */
  lemma RestingPool(L: Layout, writersFirst: bool, s: Joint)
    requires Inv(L, s) && AtRest(writersFirst, s)
    ensures s.pool.queue == [] && s.pool.active == 0
    ensures forall c :: 0 <= c < |s.pool.clients| ==> s.pool.clients[c] == P.Idle
  {
    RestingWorkers(L, writersFirst, s);
    NotJoined(s.pool);
    P.WeightZero(s.pool.workers, P.Busy);
    forall c: nat | c < |s.pool.clients| ensures s.pool.clients[c] == P.Idle || s.pool.clients[c] == P.Sleeping {
      assert !Enabled(writersFirst, s, Pool(P.TestDone(c)));
      assert !Enabled(writersFirst, s, Pool(P.NotifyOne(c, 0)));
    }
    assert !P.SomeAwake(s.pool) && P.Pushed !in s.pool.clients;
    hide P.Weight, P.Held;
  }

  /** Every client has come back from `wait_all`, with all its tasks finished. */
  ghost predicate AllReturned(s: Joint)
  {
    && |s.clients| == |s.views| == |s.pool.clients|
    && forall c :: 0 <= c < |s.clients| ==>
         s.clients[c].phase == Waiting && s.pool.clients[c] == P.Idle && R.AllFinished(s.views[c])
  }

  /**
   No deadlock among pool, readers and writers, with any number of workers from one up and either policy of the lock:
   at rest every read has called `wait_all` and returned from it, with all its tasks finished, and every writer is done.
   */
  lemma RestMeansReturned(L: Layout, writersFirst: bool, s: Joint)
    requires Inv(L, s) && AtRest(writersFirst, s)
    ensures AllReturned(s) && forall x :: 0 <= x < |s.writers| ==> s.writers[x].pc == Gone
    ensures s.pool.queue == [] && s.pool.active == 0
  {
    RestingWriters(L, writersFirst, s);
    RestingPool(L, writersFirst, s);
    AllDone(s.pool);
    forall c: nat | c < |s.clients| ensures s.clients[c].phase == Waiting && R.AllFinished(s.views[c]) {
      ClientAtRest(L, writersFirst, s, c);
    }
  }

  lemma AllDone(p: P.Pool<Job>)
    requires P.Inv(p) && p.queue == [] && p.active == 0
    ensures forall t :: t in p.accepted ==> t in p.done
  {
    P.HeldEmpty(p.workers);
    hide P.Held, P.Weight;
    assert multiset(p.accepted) == multiset(p.started);
    forall t | t in p.accepted ensures t in p.done {
      assert t in multiset(p.accepted);
    }
  }

  lemma ClientAtRest(L: Layout, writersFirst: bool, s: Joint, c: nat)
    requires Inv(L, s) && AtRest(writersFirst, s) && c < |s.clients| && s.pool.clients[c] == P.Idle
    requires (forall g :: CanShare(writersFirst, s, g)) && forall t :: t in s.pool.accepted ==> t in s.pool.done
    ensures s.clients[c].phase == Waiting && R.AllFinished(s.views[c])
  {
    assert !Enabled(writersFirst, s, MetaLock(c)) && !Enabled(writersFirst, s, MetaUnlock(c));
    assert !Enabled(writersFirst, s, Push(c)) && !Enabled(writersFirst, s, CallWait(c));
    assert ClientOk(L, s, c);
    hide P.Inv, R.Inv, HeldFile, CanShare;
    forall i: nat | i < |s.views[c].tasks| ensures s.views[c].tasks[i] == R.Finished {
      assert Accepted(s, c, i);
      assert FinishedJob(s, Job(c, i));
    }
  }

  /** From the outset, every schedule without spurious wake-ups ends within the rank, with every read returned. */
  lemma EveryReadReturns(L: Layout, writersFirst: bool, workers: nat, files: nat -> File, clients: seq<Client>,
                         writers: seq<Writer>, es: seq<Event>)
    requires 0 < workers && AtOutset(clients, writers)
    requires Run(L, writersFirst, Init(workers, files, clients, writers), es) && InternalRun(es)
    ensures |es| <= Rank(Init(workers, files, clients, writers))
    ensures var s := After(L, writersFirst, Init(workers, files, clients, writers), es);
            AtRest(writersFirst, s) ==> AllReturned(s)
  {
    var s0 := Init(workers, files, clients, writers);
    InitInv(L, workers, files, clients, writers);
    InitShares(workers, files, clients, writers);
    hide Inv, Run, After, Init, Rank, AtRest, SharedFiles, AllReturned;
    RunInv(L, writersFirst, s0, es);
    RunIsBounded(L, writersFirst, s0, es);
    if AtRest(writersFirst, After(L, writersFirst, s0, es)) {
      RestMeansReturned(L, writersFirst, After(L, writersFirst, s0, es));
    }
  }

  lemma SomeStep(writersFirst: bool, s: Joint) returns (e: Event)
    requires !AtRest(writersFirst, s)
    ensures Internal(e) && Enabled(writersFirst, s, e)
  {
    hide Enabled, Internal;
    e :| Internal(e) && Enabled(writersFirst, s, e);
  }

  lemma StartsWith(L: Layout, writersFirst: bool, s: Joint, e: Event, more: seq<Event>)
    requires Internal(e) && Enabled(writersFirst, s, e)
    requires Run(L, writersFirst, Next(L, s, e), more) && InternalRun(more)
    ensures Run(L, writersFirst, s, [e] + more) && InternalRun([e] + more)
    ensures After(L, writersFirst, s, [e] + more) == After(L, writersFirst, Next(L, s, e), more)
  {
    hide Enabled, Next, Internal;
    assert ([e] + more)[1..] == more;
  }

  lemma NothingRuns(L: Layout, writersFirst: bool, s: Joint)
    ensures Run(L, writersFirst, s, []) && InternalRun([]) && After(L, writersFirst, s, []) == s
  {
  }

  lemma {:induction false} RestIsReached(L: Layout, writersFirst: bool, s: Joint) returns (es: seq<Event>)
    requires Inv(L, s)
    ensures Run(L, writersFirst, s, es) && InternalRun(es) && AtRest(writersFirst, After(L, writersFirst, s, es))
    decreases Rank(s)
  {
    hide *;
    if AtRest(writersFirst, s) {
      es := [];
      NothingRuns(L, writersFirst, s);
    } else {
      var e := SomeStep(writersFirst, s);
      StepRank(L, writersFirst, s, e);
      NextInv(L, writersFirst, s, e);
      var more := RestIsReached(L, writersFirst, Next(L, s, e));
      StartsWith(L, writersFirst, s, e, more);
      es := [e] + more;
    }
  }

  /** And there is such a schedule: whatever was asked for, all reads can return and all writers finish. */
  lemma SomeScheduleReturns(L: Layout, writersFirst: bool, workers: nat, files: nat -> File, clients: seq<Client>,
                            writers: seq<Writer>) returns (es: seq<Event>)
    requires 0 < workers && AtOutset(clients, writers)
    ensures Run(L, writersFirst, Init(workers, files, clients, writers), es) && InternalRun(es)
    ensures AllReturned(After(L, writersFirst, Init(workers, files, clients, writers), es))
  {
    var s0 := Init(workers, files, clients, writers);
    InitInv(L, workers, files, clients, writers);
    hide Inv, Run, After, Init, Rank, AtRest, AllReturned, InternalRun;
    es := RestIsReached(L, writersFirst, s0);
    EveryReadReturns(L, writersFirst, workers, files, clients, writers, es);
  }
}
