/** The worker pool as a step system: workers, callers and destructor around one mutex and two condition variables. */
module ThreadPool {

  /** `Waiting` sleeps on `cv_`; `Ready` is about to take the mutex and test; `Returned` still counts as active. */
  datatype WorkerPc<T> = Waiting | Ready | Running(t: T) | Returned(t: T) | Exited

  /** `Pushed` is the gap between the push and `notify_one`; `Sleeping` sleeps on `cv_done_` inside `wait_all`. */
  datatype ClientPc = Idle | Pushed | Testing | Sleeping

  datatype DtorPc = NotBegun | StopSet | Joining | Joined

  /**
   `accepted`, `started`, `done` and `late` are history: every task pushed and every task taken, in order, the
   tasks completed, and whether a task was pushed when every worker had already left.
   */
  datatype Pool<T> = Pool(
    queue: seq<T>, active: nat, stop: bool,
    workers: seq<WorkerPc<T>>, clients: seq<ClientPc>, dtor: DtorPc,
    accepted: seq<T>, started: seq<T>, done: multiset<T>, late: bool)

  datatype Event<T> =
    | Push(c: nat, t: T)
    | NotifyOne(c: nat, w: nat)
    | NotifyNobody(c: nat)
    | Test(w: nat)
    | Return(w: nat)
    | Finish(w: nat)
    | CallWait(c: nat)
    | TestDone(c: nat)
    | SpuriousWorker(w: nat)
    | SpuriousClient(c: nat)
    | Stop
    | NotifyAll
    | Join

  function Init<T>(workers: nat, clients: nat): Pool<T>
  {
    Pool([], 0, false, seq(workers, _ => Ready), seq(clients, _ => Idle), NotBegun, [], [], multiset{}, false)
  }

  // ---------------------------------------------------------------- the steps

  predicate WorkerAt<T(==)>(s: Pool<T>, w: nat, pc: WorkerPc<T>)
  {
    w < |s.workers| && s.workers[w] == pc
  }

  predicate ClientAt<T>(s: Pool<T>, c: nat, pc: ClientPc)
  {
    c < |s.clients| && s.clients[c] == pc
  }

  predicate Enabled<T(==)>(s: Pool<T>, e: Event<T>)
  {
    match e
    case Push(c, _) => ClientAt(s, c, Idle) && s.dtor != Joined
    case NotifyOne(c, w) => ClientAt(s, c, Pushed) && WorkerAt(s, w, Waiting)
    case NotifyNobody(c) => ClientAt(s, c, Pushed) && Waiting !in s.workers
    case Test(w) => WorkerAt(s, w, Ready)
    case Return(w) => w < |s.workers| && s.workers[w].Running?
    case Finish(w) => w < |s.workers| && s.workers[w].Returned?
    case CallWait(c) => ClientAt(s, c, Idle) && s.dtor != Joined
    case TestDone(c) => ClientAt(s, c, Testing)
    case SpuriousWorker(w) => WorkerAt(s, w, Waiting)
    case SpuriousClient(c) => ClientAt(s, c, Sleeping)
    case Stop => s.dtor == NotBegun
    case NotifyAll => s.dtor == StopSet
    case Join => s.dtor == Joining && AllExited(s.workers)
  }

  predicate AllExited<T>(ws: seq<WorkerPc<T>>)
  {
    forall i :: 0 <= i < |ws| ==> ws[i].Exited?
  }

  function WokenWorkers<T>(ws: seq<WorkerPc<T>>): seq<WorkerPc<T>>
  {
    seq(|ws|, i requires 0 <= i < |ws| => if ws[i].Waiting? then Ready else ws[i])
  }

  function WokenClients(cs: seq<ClientPc>): seq<ClientPc>
  {
    seq(|cs|, i requires 0 <= i < |cs| => if cs[i] == Sleeping then Testing else cs[i])
  }

  /** The worker's critical section: take the oldest task, leave when stopped and drained, or go to sleep. */
  function TestStep<T>(s: Pool<T>, w: nat): Pool<T>
    requires w < |s.workers|
  {
    if s.queue != [] then
      s.(queue := s.queue[1..], active := s.active + 1, workers := s.workers[w := Running(s.queue[0])],
         started := s.started + [s.queue[0]])
    else if s.stop then s.(workers := s.workers[w := Exited])
    else s.(workers := s.workers[w := Waiting])
  }

  /** The second critical section: `--active_`, and wake every `wait_all` caller when nothing is left. */
  function FinishStep<T>(s: Pool<T>, w: nat): Pool<T>
    requires w < |s.workers| && s.workers[w].Returned? && 0 < s.active
  {
    var idle := s.queue == [] && s.active == 1;
    s.(active := s.active - 1, workers := s.workers[w := Ready], done := s.done + multiset{s.workers[w].t},
       clients := if idle then WokenClients(s.clients) else s.clients)
  }

  function Next<T>(s: Pool<T>, e: Event<T>): Pool<T>
    requires Enabled(s, e) && (e.Finish? ==> 0 < s.active)
  {
    match e
    case Push(c, t) =>
      s.(queue := s.queue + [t], accepted := s.accepted + [t], clients := s.clients[c := Pushed],
         late := s.late || AllExited(s.workers))
    case NotifyOne(c, w) => s.(clients := s.clients[c := Idle], workers := s.workers[w := Ready])
    case NotifyNobody(c) => s.(clients := s.clients[c := Idle])
    case Test(w) => TestStep(s, w)
    case Return(w) => s.(workers := s.workers[w := Returned(s.workers[w].t)])
    case Finish(w) => FinishStep(s, w)
    case CallWait(c) => s.(clients := s.clients[c := Testing])
    case TestDone(c) =>
      s.(clients := s.clients[c := if s.queue == [] && s.active == 0 then Idle else Sleeping])
    case SpuriousWorker(w) => s.(workers := s.workers[w := Ready])
    case SpuriousClient(c) => s.(clients := s.clients[c := Testing])
    case Stop => s.(stop := true, dtor := StopSet)
    case NotifyAll => s.(workers := WokenWorkers(s.workers), dtor := Joining)
    case Join => s.(dtor := Joined)
  }

  // ---------------------------------------------------------------- counting over workers

  function Weight<A>(s: seq<A>, f: A -> nat): nat
  {
    if s == [] then 0 else f(s[0]) + Weight(s[1..], f)
  }

  lemma {:induction false} WeightUpdate<A>(s: seq<A>, i: nat, x: A, f: A -> nat)
    requires i < |s|
    ensures f(s[i]) <= Weight(s, f)
    ensures Weight(s[i := x], f) == Weight(s, f) - f(s[i]) + f(x)
  {
    if i == 0 {
      assert s[i := x][1..] == s[1..];
    } else {
      WeightUpdate(s[1..], i - 1, x, f);
      assert s[i := x][1..] == s[1..][i - 1 := x];
    }
  }

  lemma {:induction false} WeightAtMost<A>(s: seq<A>, s': seq<A>, f: A -> nat)
    requires |s| == |s'| && forall i :: 0 <= i < |s| ==> f(s'[i]) <= f(s[i]) + 1
    ensures Weight(s', f) <= Weight(s, f) + |s|
  {
    if s != [] {
      WeightAtMost(s[1..], s'[1..], f);
    }
  }

  lemma {:induction false} WeightZero<A>(s: seq<A>, f: A -> nat)
    ensures Weight(s, f) == 0 <==> forall i :: 0 <= i < |s| ==> f(s[i]) == 0
  {
    if s != [] {
      WeightZero(s[1..], f);
      assert s == [s[0]] + s[1..];
    }
  }

  lemma {:induction false} WeightSame<A>(s: seq<A>, s': seq<A>, f: A -> nat)
    requires |s| == |s'| && forall i :: 0 <= i < |s| ==> f(s'[i]) == f(s[i])
    ensures Weight(s', f) == Weight(s, f)
  {
    if s != [] {
      WeightSame(s[1..], s'[1..], f);
    }
  }

  function Busy<T>(w: WorkerPc<T>): nat
  {
    if w.Running? || w.Returned? then 1 else 0
  }

  function TaskOf<T>(w: WorkerPc<T>): multiset<T>
  {
    if w.Running? || w.Returned? then multiset{w.t} else multiset{}
  }

  /** The tasks that workers hold. */
  function Held<T>(ws: seq<WorkerPc<T>>): multiset<T>
  {
    if ws == [] then multiset{} else TaskOf(ws[0]) + Held(ws[1..])
  }

  lemma {:induction false} HeldUpdate<T>(ws: seq<WorkerPc<T>>, i: nat, x: WorkerPc<T>)
    requires i < |ws|
    ensures Held(ws[i := x]) + TaskOf(ws[i]) == Held(ws) + TaskOf(x)
  {
    hide TaskOf;
    if i == 0 {
      assert ws[i := x][1..] == ws[1..];
    } else {
      HeldUpdate(ws[1..], i - 1, x);
      assert ws[i := x][1..] == ws[1..][i - 1 := x];
      var first, old', new' := TaskOf(ws[0]), Held(ws[1..]), Held(ws[1..][i - 1 := x]);
      assert (first + new') + TaskOf(ws[i]) == first + (new' + TaskOf(ws[i]));
      assert (first + old') + TaskOf(x) == first + (old' + TaskOf(x));
    }
  }

  lemma {:induction false} HeldWoken<T>(ws: seq<WorkerPc<T>>)
    ensures Held(WokenWorkers(ws)) == Held(ws)
  {
    if ws != [] {
      HeldWoken(ws[1..]);
      assert WokenWorkers(ws)[1..] == WokenWorkers(ws[1..]);
    }
  }

  lemma {:induction false} HeldEmpty<T>(ws: seq<WorkerPc<T>>)
    requires Weight(ws, Busy) == 0
    ensures Held(ws) == multiset{}
  {
    if ws != [] {
      HeldEmpty(ws[1..]);
    }
  }

  lemma {:induction false} HeldHas<T>(ws: seq<WorkerPc<T>>, w: nat)
    requires w < |ws| && (ws[w].Running? || ws[w].Returned?)
    ensures ws[w].t in Held(ws)
  {
    if w > 0 {
      HeldHas(ws[1..], w - 1);
    }
  }

  // ---------------------------------------------------------------- the invariant

  predicate Awake<T>(w: WorkerPc<T>)
  {
    w.Ready? || w.Running? || w.Returned?
  }

  ghost predicate SomeAwake<T>(s: Pool<T>)
  {
    exists w :: 0 <= w < |s.workers| && Awake(s.workers[w])
  }

  /** Tasks are taken in the order they were accepted, each once, and none is lost or duplicated. */
  ghost predicate Conserved<T>(s: Pool<T>)
  {
    && s.accepted == s.started + s.queue
    && multiset(s.started) == Held(s.workers) + s.done
  }

  /** No lost wake-up: a nonempty queue has a worker awake, or a notification still to come. */
  ghost predicate WakeupPending<T>(s: Pool<T>)
  {
    s.queue != [] && !s.late ==> SomeAwake(s) || Pushed in s.clients || s.dtor == StopSet
  }

  /** A caller asleep in `wait_all` has something to wait for. */
  ghost predicate SleepJustified<T>(s: Pool<T>)
  {
    Sleeping in s.clients ==> s.queue != [] || 0 < s.active
  }

  ghost predicate Shutdown<T>(s: Pool<T>)
  {
    && (s.stop <==> s.dtor != NotBegun)
    && (s.late <==> AllExited(s.workers) && s.queue != [])
    && (s.dtor == Joining || s.dtor == Joined ==> Waiting !in s.workers)
    && (s.dtor == Joined ==> AllExited(s.workers))
    && (Exited in s.workers ==> s.stop)
  }

  ghost predicate Inv<T>(s: Pool<T>)
  {
    && 0 < |s.workers|
    && Conserved(s)
    && s.active == Weight(s.workers, Busy)
    && WakeupPending(s)
    && SleepJustified(s)
    && Shutdown(s)
  }

  lemma {:induction false} InitWeights<T>(ws: seq<WorkerPc<T>>)
    requires forall i :: 0 <= i < |ws| ==> ws[i] == Ready
    ensures Held(ws) == multiset{} && Weight(ws, Busy) == 0
  {
    if ws != [] {
      InitWeights(ws[1..]);
    }
  }

  lemma InitInv<T>(workers: nat, clients: nat)
    requires 0 < workers
    ensures Inv(Init<T>(workers, clients))
  {
    InitWeights(Init<T>(workers, clients).workers);
  }

  /** Whatever is queued, held or completed was accepted. */
  lemma AllAccepted<T>(s: Pool<T>, t: T)
    requires Inv(s)
    requires t in s.queue || t in s.done ||
             exists w :: 0 <= w < |s.workers| && (s.workers[w] == Running(t) || s.workers[w] == Returned(t))
    ensures t in s.accepted
  {
    if t !in s.queue && t !in s.done {
      var w :| 0 <= w < |s.workers| && (s.workers[w] == Running(t) || s.workers[w] == Returned(t));
      HeldHas(s.workers, w);
    }
    hide Held, Weight;
    if t !in s.queue {
      assert t in multiset(s.started);
    }
  }

  /** The decrement of `active_` is never a wrap-around: the finishing worker is counted. */
  lemma FinishCounted<T>(s: Pool<T>, e: Event<T>)
    requires Inv(s) && Enabled(s, e)
    ensures e.Finish? ==> 0 < s.active
  {
    if e.Finish? {
      WeightUpdate(s.workers, e.w, Ready, Busy);
    }
  }

  // ---------------------------------------------------------------- every step keeps the invariant

  /** The steps of workers that do not touch the queue. */
  lemma WorkerMove<T>(s: Pool<T>, w: nat, pc: WorkerPc<T>)
    requires w < |s.workers| && TaskOf(pc) == TaskOf(s.workers[w]) && Busy(pc) == Busy(s.workers[w])
    ensures Held(s.workers[w := pc]) == Held(s.workers)
    ensures Weight(s.workers[w := pc], Busy) == Weight(s.workers, Busy)
  {
    HeldUpdate(s.workers, w, pc);
    WeightUpdate(s.workers, w, pc, Busy);
    assert Held(s.workers[w := pc]) + TaskOf(pc) - TaskOf(pc) == Held(s.workers[w := pc]);
    assert Held(s.workers) + TaskOf(pc) - TaskOf(pc) == Held(s.workers);
  }

  /** A worker wakes up, or returns from its task. */
  lemma WakeInv<T>(s: Pool<T>, w: nat, pc: WorkerPc<T>)
    requires Inv(s) && w < |s.workers| && s.workers[w] != Exited && Awake(pc)
    requires TaskOf(pc) == TaskOf(s.workers[w]) && Busy(pc) == Busy(s.workers[w])
    ensures Inv(s.(workers := s.workers[w := pc]))
  {
    WorkerMove(s, w, pc);
    hide Held, Weight, TaskOf, Busy;
    var s' := s.(workers := s.workers[w := pc]);
    assert Conserved(s') && s'.active == Weight(s'.workers, Busy);
    hide Conserved;
    WokenShutdown(s, w, pc);
    assert Awake(s'.workers[w]);
  }

  lemma WokenShutdown<T>(s: Pool<T>, w: nat, pc: WorkerPc<T>)
    requires Shutdown(s) && w < |s.workers| && s.workers[w] != Exited && Awake(pc)
    ensures Shutdown(s.(workers := s.workers[w := pc]))
  {
    var ws := s.workers[w := pc];
    assert Exited in ws ==> Exited in s.workers;
    assert Waiting in ws ==> Waiting in s.workers;
    assert !ws[w].Exited? && !s.workers[w].Exited?;
  }

  /** A worker that finds the queue empty leaves if the pool is stopped, and sleeps otherwise. */
  lemma RestInv<T>(s: Pool<T>, w: nat)
    requires Inv(s) && WorkerAt(s, w, Ready) && s.queue == []
    ensures Inv(TestStep(s, w))
  {
    var pc := if s.stop then Exited else Waiting;
    WorkerMove(s, w, pc);
    hide Held, Weight;
    var ws := s.workers[w := pc];
    assert Exited in ws ==> pc == Exited || Exited in s.workers;
    assert Waiting in ws ==> pc == Waiting || Waiting in s.workers;
  }

  lemma TakeConserved<T>(s: Pool<T>, w: nat)
    requires Inv(s) && WorkerAt(s, w, Ready) && s.queue != []
    ensures Conserved(TestStep(s, w)) && TestStep(s, w).active == Weight(TestStep(s, w).workers, Busy)
  {
    var t := s.queue[0];
    HeldUpdate(s.workers, w, Running(t));
    WeightUpdate(s.workers, w, Running(t), Busy);
    TakeHead(s.started, s.queue);
    hide Held, Weight;
    assert Held(s.workers[w := Running(t)]) == Held(s.workers) + multiset{t};
  }

  lemma TakeHead<T>(started: seq<T>, queue: seq<T>)
    requires queue != []
    ensures started + queue == (started + [queue[0]]) + queue[1..]
    ensures multiset(started + [queue[0]]) == multiset(started) + multiset{queue[0]}
  {
  }

  lemma TakeInv<T>(s: Pool<T>, w: nat)
    requires Inv(s) && WorkerAt(s, w, Ready) && s.queue != []
    ensures Inv(TestStep(s, w))
  {
    TakeConserved(s, w);
    hide Held, Weight, Conserved;
    var s' := TestStep(s, w);
    assert Awake(s'.workers[w]);
    assert Exited in s'.workers ==> Exited in s.workers;
    assert Waiting in s'.workers ==> Waiting in s.workers;
  }

  lemma FinishConserved<T>(s: Pool<T>, w: nat)
    requires Inv(s) && w < |s.workers| && s.workers[w].Returned? && 0 < s.active
    ensures Conserved(FinishStep(s, w)) && FinishStep(s, w).active == Weight(FinishStep(s, w).workers, Busy)
  {
    HeldUpdate(s.workers, w, Ready);
    WeightUpdate(s.workers, w, Ready, Busy);
    hide Held, Weight;
    assert Held(s.workers) == Held(s.workers[w := Ready]) + multiset{s.workers[w].t};
  }

  lemma FinishInv<T>(s: Pool<T>, w: nat)
    requires Inv(s) && w < |s.workers| && s.workers[w].Returned? && 0 < s.active
    ensures Inv(FinishStep(s, w))
  {
    FinishConserved(s, w);
    hide Held, Weight, Conserved;
    var s' := FinishStep(s, w);
    assert Awake(s'.workers[w]);
    assert Exited in s'.workers ==> Exited in s.workers;
    assert Waiting in s'.workers ==> Waiting in s.workers;
    assert Sleeping in s'.clients ==> s'.clients == s.clients;
  }

  lemma WokenIs<T>(ws: seq<WorkerPc<T>>)
    ensures |WokenWorkers(ws)| == |ws| && Waiting !in WokenWorkers(ws)
    ensures Exited in WokenWorkers(ws) ==> Exited in ws
    ensures Held(WokenWorkers(ws)) == Held(ws) && Weight(WokenWorkers(ws), Busy) == Weight(ws, Busy)
  {
    HeldWoken(ws);
    WeightSame(ws, WokenWorkers(ws), Busy);
  }

  lemma WokenExited<T>(ws: seq<WorkerPc<T>>)
    ensures AllExited(WokenWorkers(ws)) <==> AllExited(ws)
  {
    forall i | 0 <= i < |ws| ensures WokenWorkers(ws)[i].Exited? <==> ws[i].Exited? {
    }
  }

  lemma NotifyAllInv<T>(s: Pool<T>)
    requires Inv(s) && s.dtor == StopSet
    ensures Inv(s.(workers := WokenWorkers(s.workers), dtor := Joining))
  {
    hide Held, Weight, WokenWorkers;
    WokenIs(s.workers);
    WokenExited(s.workers);
    FirstWorker(s.(workers := WokenWorkers(s.workers), dtor := Joining));
  }

  /** With no worker asleep, one is awake or all are gone. */
  lemma FirstWorker<T>(s: Pool<T>)
    requires Waiting !in s.workers
    ensures SomeAwake(s) || AllExited(s.workers)
  {
    if w :| 0 <= w < |s.workers| && !s.workers[w].Exited? {
      assert Awake(s.workers[w]);
    }
  }

  lemma NotifyInv<T>(s: Pool<T>, e: Event<T>)
    requires Inv(s) && Enabled(s, e) && (e.NotifyOne? || e.NotifyNobody?)
    ensures Inv(Next(s, e))
  {
    hide Held, Weight;
    assert Sleeping in s.clients[e.c := Idle] ==> Sleeping in s.clients;
    if e.NotifyOne? {
      WorkerMove(s, e.w, Ready);
      var ws := s.workers[e.w := Ready];
      assert Awake(ws[e.w]);
      assert Exited in ws ==> Exited in s.workers;
      assert Waiting in ws ==> Waiting in s.workers;
    } else {
      FirstWorker(s);
    }
  }

  lemma PushInv<T>(s: Pool<T>, c: nat, t: T)
    requires Inv(s) && Enabled(s, Push(c, t))
    ensures Inv(Next(s, Push(c, t)))
  {
    hide Held, Weight;
    var cs := s.clients[c := Pushed];
    assert cs[c] == Pushed;
    assert Sleeping in cs ==> Sleeping in s.clients;
    assert s.accepted + [t] == s.started + (s.queue + [t]);
  }

  lemma ClientKeeps<T>(s: Pool<T>, c: nat, pc: ClientPc)
    requires Inv(s) && c < |s.clients| && s.clients[c] != Pushed && pc != Pushed
    requires pc == Sleeping ==> s.queue != [] || 0 < s.active
    ensures Inv(s.(clients := s.clients[c := pc]))
  {
    var cs := s.clients[c := pc];
    assert Pushed in s.clients ==> Pushed in cs by {
      if i :| 0 <= i < |s.clients| && s.clients[i] == Pushed {
        assert cs[i] == Pushed;
      }
    }
    assert Sleeping in cs ==> pc == Sleeping || Sleeping in s.clients;
  }

  lemma ShutdownInv<T>(s: Pool<T>, e: Event<T>)
    requires Inv(s) && Enabled(s, e) && (e.Stop? || e.Join?)
    ensures Inv(Next(s, e))
  {
    hide Held, Weight;
  }

  /** Every step keeps the invariant. */
  lemma NextInv<T>(s: Pool<T>, e: Event<T>)
    requires Inv(s) && Enabled(s, e)
    ensures (e.Finish? ==> 0 < s.active) && Inv(Next(s, e))
  {
    FinishCounted(s, e);
    hide Inv;
    match e
    case Push(c, t) => PushInv(s, c, t);
    case NotifyOne(_, _) => NotifyInv(s, e);
    case NotifyNobody(_) => NotifyInv(s, e);
    case Test(w) =>
      if s.queue != [] {
        TakeInv(s, w);
      } else {
        RestInv(s, w);
      }
    case Return(w) => WakeInv(s, w, Returned(s.workers[w].t));
    case Finish(w) => FinishInv(s, w);
    case CallWait(c) => ClientKeeps(s, c, Testing);
    case TestDone(c) => ClientKeeps(s, c, if s.queue == [] && s.active == 0 then Idle else Sleeping);
    case SpuriousWorker(w) => WakeInv(s, w, Ready);
    case SpuriousClient(c) => ClientKeeps(s, c, Testing);
    case Stop => ShutdownInv(s, e);
    case NotifyAll => NotifyAllInv(s);
    case Join => ShutdownInv(s, e);
  }

  // ---------------------------------------------------------------- whole runs

  /** A run: every event is enabled when it happens. */
  ghost predicate Run<T>(s: Pool<T>, es: seq<Event<T>>)
    decreases |es|
  {
    es == [] || (Enabled(s, es[0]) && (es[0].Finish? ==> 0 < s.active) && Run(Next(s, es[0]), es[1..]))
  }

  ghost function After<T>(s: Pool<T>, es: seq<Event<T>>): Pool<T>
    requires Run(s, es)
    decreases |es|
  {
    if es == [] then s else After(Next(s, es[0]), es[1..])
  }

  lemma {:induction false} RunInv<T>(s: Pool<T>, es: seq<Event<T>>)
    requires Inv(s) && Run(s, es)
    ensures Inv(After(s, es))
    decreases |es|
  {
    if es != [] {
      NextInv(s, es[0]);
      RunInv(Next(s, es[0]), es[1..]);
    }
  }

  /**
   After any run from start-up with at least one worker: tasks start in the order of acceptance, each once;
   accepted tasks are the queued, the held and the completed ones; `active_` counts the workers that hold one.
   */
  lemma PoolSafety<T>(workers: nat, clients: nat, es: seq<Event<T>>)
    requires 0 < workers && Run(Init<T>(workers, clients), es)
    ensures var s := After(Init<T>(workers, clients), es);
            && s.accepted == s.started + s.queue
            && multiset(s.accepted) == multiset(s.queue) + Held(s.workers) + s.done
            && s.active == Weight(s.workers, Busy)
            && WakeupPending(s) && SleepJustified(s)
  {
    InitInv<T>(workers, clients);
    RunInv(Init<T>(workers, clients), es);
    hide Held, Weight;
    var s := After(Init<T>(workers, clients), es);
    assert multiset(s.accepted) == multiset(s.started) + multiset(s.queue);
  }

  /** A test in `wait_all` lets the caller go exactly when every accepted task has completed. */
  lemma WaitReturns<T>(s: Pool<T>, c: nat)
    requires Inv(s) && Enabled(s, TestDone(c))
    ensures Next(s, TestDone(c)).clients[c] == Idle <==> s.done == multiset(s.accepted)
    ensures s.done == multiset(s.accepted) ==>
              s.queue == [] && forall w :: 0 <= w < |s.workers| ==> !s.workers[w].Running? && !s.workers[w].Returned?
  {
    WeightZero(s.workers, Busy);
    assert multiset(s.accepted) == multiset(s.started) + multiset(s.queue);
    if s.active == 0 {
      HeldEmpty(s.workers);
    } else {
      HeldSize(s.workers);
    }
    hide Held, Weight;
    assert |multiset(s.accepted)| == |s.done| + |Held(s.workers)| + |s.queue|;
  }

  lemma {:induction false} HeldSize<T>(ws: seq<WorkerPc<T>>)
    ensures |Held(ws)| == Weight(ws, Busy)
  {
    if ws != [] {
      HeldSize(ws[1..]);
    }
  }

  /** Joined workers leave every accepted task completed exactly when none was pushed after the last had left. */
  lemma JoinedIsDrained<T>(s: Pool<T>)
    requires Inv(s) && s.dtor == Joined
    ensures s.queue == [] <==> s.done == multiset(s.accepted)
    ensures s.queue == [] <==> !s.late
  {
    assert multiset(s.accepted) == multiset(s.started) + multiset(s.queue);
    WeightZero(s.workers, Busy);
    HeldEmpty(s.workers);
    hide Held, Weight;
    assert |multiset(s.accepted)| == |s.done| + |s.queue|;
  }

  /** The pool of one worker and one client, with nothing started, as the run below drives it. */
  function OneWorker<T>(queue: seq<T>, w: WorkerPc<T>, c: ClientPc, dtor: DtorPc): Pool<T>
  {
    Pool(queue, 0, dtor != NotBegun, [w], [c], dtor, queue, [], multiset{}, queue != [])
  }

  lemma LateSteps<T>(t: T)
    ensures Init<T>(1, 1) == OneWorker<T>([], Ready, Idle, NotBegun)
    ensures var s := OneWorker<T>([], Ready, Idle, NotBegun);
            Enabled(s, Stop) && Next(s, Stop) == OneWorker<T>([], Ready, Idle, StopSet)
    ensures var s := OneWorker<T>([], Ready, Idle, StopSet);
            Enabled(s, NotifyAll) && Next(s, NotifyAll) == OneWorker<T>([], Ready, Idle, Joining)
    ensures var s := OneWorker<T>([], Ready, Idle, Joining);
            Enabled(s, Test(0)) && Next(s, Test(0)) == OneWorker<T>([], Exited, Idle, Joining)
    ensures var s := OneWorker<T>([], Exited, Idle, Joining);
            Enabled(s, Push(0, t)) && Next(s, Push(0, t)) == OneWorker([t], Exited, Pushed, Joining)
    ensures var s := OneWorker([t], Exited, Pushed, Joining);
            Enabled(s, NotifyNobody(0)) && Next(s, NotifyNobody(0)) == OneWorker([t], Exited, Idle, Joining)
    ensures var s := OneWorker([t], Exited, Idle, Joining);
            Enabled(s, CallWait(0)) && Next(s, CallWait(0)) == OneWorker([t], Exited, Testing, Joining)
    ensures var s := OneWorker([t], Exited, Testing, Joining);
            Enabled(s, TestDone(0)) && Next(s, TestDone(0)) == OneWorker([t], Exited, Sleeping, Joining)
  {
  }

  /** A task pushed after stop can be stranded: the only worker has left, and the notification wakes nobody. */
  lemma LateTaskStrands<T>(t: T)
    ensures var es := [Stop, NotifyAll, Test(0), Push(0, t), NotifyNobody(0), CallWait(0), TestDone(0)];
            Run(Init<T>(1, 1), es) && After(Init<T>(1, 1), es) == OneWorker([t], Exited, Sleeping, Joining)
  {
    LateSteps(t);
    hide Next, Enabled, Init, OneWorker;
    var e7 := [TestDone(0)];
    var e6 := [CallWait(0), TestDone(0)];
    var e5 := [NotifyNobody(0), CallWait(0), TestDone(0)];
    var e4 := [Push(0, t), NotifyNobody(0), CallWait(0), TestDone(0)];
    var e3 := [Test(0), Push(0, t), NotifyNobody(0), CallWait(0), TestDone(0)];
    var e2 := [NotifyAll, Test(0), Push(0, t), NotifyNobody(0), CallWait(0), TestDone(0)];
    RunCons(OneWorker([t], Exited, Testing, Joining), TestDone(0), []);
    RunCons(OneWorker([t], Exited, Idle, Joining), CallWait(0), e7);
    RunCons(OneWorker([t], Exited, Pushed, Joining), NotifyNobody(0), e6);
    RunCons(OneWorker<T>([], Exited, Idle, Joining), Push(0, t), e5);
    RunCons(OneWorker<T>([], Ready, Idle, Joining), Test(0), e4);
    RunCons(OneWorker<T>([], Ready, Idle, StopSet), NotifyAll, e3);
    RunCons(OneWorker<T>([], Ready, Idle, NotBegun), Stop, e2);
  }

  lemma RunCons<T>(s: Pool<T>, e: Event<T>, es: seq<Event<T>>)
    requires Enabled(s, e) && (e.Finish? ==> 0 < s.active) && Run(Next(s, e), es)
    ensures Run(s, [e] + es) && After(s, [e] + es) == After(Next(s, e), es)
  {
    assert ([e] + es)[1..] == es;
  }

  // ---------------------------------------------------------------- progress

  /** The steps that need no new call from outside and no spurious wake-up; a running task returns. */
  predicate Internal<T>(e: Event<T>)
  {
    !e.Push? && !e.CallWait? && !e.Stop? && !e.SpuriousWorker? && !e.SpuriousClient?
  }

  function WorkerRank<T>(clients: nat): WorkerPc<T> -> nat
  {
    (w: WorkerPc<T>) =>
      if w.Ready? then 1 else if w.Returned? then clients + 2 else if w.Running? then clients + 3 else 0
  }

  function ClientRank(c: ClientPc): nat
  {
    match c
    case Idle => 0
    case Pushed => 2
    case Testing => 2
    case Sleeping => 1
  }

  function DtorRank<T>(s: Pool<T>): nat
  {
    match s.dtor
    case StopSet => |s.workers| + 2
    case Joining => 1
    case _ => 0
  }

  function TaskRank<T>(clients: nat): T -> nat
  {
    (t: T) => clients + 3
  }

  /** What is left to do: tasks, worker positions, callers and the destructor, so weighted that every step pays. */
  function Rank<T>(s: Pool<T>): nat
  {
    Weight(s.queue, TaskRank<T>(|s.clients|)) + Weight(s.workers, WorkerRank<T>(|s.clients|))
    + Weight(s.clients, ClientRank) + DtorRank(s)
  }

  lemma ClientRankUpdate(cs: seq<ClientPc>, c: nat, pc: ClientPc)
    requires c < |cs|
    ensures Weight(cs[c := pc], ClientRank) + ClientRank(cs[c]) == Weight(cs, ClientRank) + ClientRank(pc)
  {
    WeightUpdate(cs, c, pc, ClientRank);
  }

  lemma WorkerRankUpdate<T>(ws: seq<WorkerPc<T>>, w: nat, pc: WorkerPc<T>, n: nat)
    requires w < |ws|
    ensures Weight(ws[w := pc], WorkerRank(n)) + WorkerRank<T>(n)(ws[w]) ==
            Weight(ws, WorkerRank(n)) + WorkerRank<T>(n)(pc)
  {
    WeightUpdate(ws, w, pc, WorkerRank<T>(n));
  }

  lemma NotifyRank<T>(s: Pool<T>, e: Event<T>)
    requires Enabled(s, e) && (e.NotifyOne? || e.NotifyNobody?)
    ensures Rank(Next(s, e)) < Rank(s)
  {
    ClientRankUpdate(s.clients, e.c, Idle);
    if e.NotifyOne? {
      WorkerRankUpdate(s.workers, e.w, Ready, |s.clients|);
    }
    hide Weight;
  }

  lemma TestRank<T>(s: Pool<T>, w: nat)
    requires WorkerAt(s, w, Ready)
    ensures Rank(TestStep(s, w)) < Rank(s)
  {
    WorkerRankUpdate(s.workers, w, TestStep(s, w).workers[w], |s.clients|);
    if s.queue != [] {
      assert Weight(s.queue, TaskRank<T>(|s.clients|)) == |s.clients| + 3 + Weight(s.queue[1..], TaskRank<T>(|s.clients|));
    }
    hide Weight;
  }

  lemma FinishRank<T>(s: Pool<T>, w: nat)
    requires w < |s.workers| && s.workers[w].Returned? && 0 < s.active
    ensures Rank(FinishStep(s, w)) < Rank(s)
  {
    WorkerRankUpdate(s.workers, w, Ready, |s.clients|);
    WeightAtMost(s.clients, WokenClients(s.clients), ClientRank);
    hide Weight, WokenClients;
    assert |FinishStep(s, w).clients| == |s.clients| by {
      assert |WokenClients(s.clients)| == |s.clients|;
    }
  }

  /** Every internal step makes the rank smaller. */
  lemma StepRank<T>(s: Pool<T>, e: Event<T>)
    requires Inv(s) && Enabled(s, e) && Internal(e)
    ensures (e.Finish? ==> 0 < s.active) && Rank(Next(s, e)) < Rank(s)
  {
    FinishCounted(s, e);
    hide Inv;
    match e
    case NotifyOne(_, _) => NotifyRank(s, e);
    case NotifyNobody(_) => NotifyRank(s, e);
    case Test(w) => TestRank(s, w);
    case Return(w) => WorkerRankUpdate(s.workers, w, Returned(s.workers[w].t), |s.clients|);
    case Finish(w) => FinishRank(s, w);
    case TestDone(c) => ClientRankUpdate(s.clients, c, Next(s, e).clients[c]);
    case NotifyAll => WeightAtMost(s.workers, WokenWorkers(s.workers), WorkerRank<T>(|s.clients|));
    case Join =>
  }

  lemma {:induction false} WeightAppend<A>(s: seq<A>, x: A, f: A -> nat)
    ensures Weight(s + [x], f) == Weight(s, f) + f(x)
  {
    if s == [] {
      assert [] + [x] == [x] && [x][1..] == [];
    } else {
      assert (s + [x])[1..] == s[1..] + [x];
      WeightAppend(s[1..], x, f);
    }
  }

  /** What new calls add to the rank. */
  lemma PushRank<T>(s: Pool<T>, c: nat, t: T)
    requires Enabled(s, Push(c, t))
    ensures Rank(Next(s, Push(c, t))) == Rank(s) + |s.clients| + 5
  {
    WeightAppend(s.queue, t, TaskRank<T>(|s.clients|));
    ClientRankUpdate(s.clients, c, Pushed);
    hide Weight;
  }

  lemma CallWaitRank<T>(s: Pool<T>, c: nat)
    requires Enabled(s, CallWait(c))
    ensures Rank(Next(s, CallWait(c))) == Rank(s) + 2
  {
    ClientRankUpdate(s.clients, c, Testing);
    hide Weight;
  }

  ghost predicate InternalRun<T>(es: seq<Event<T>>)
  {
    forall i :: 0 <= i < |es| ==> Internal(es[i])
  }

  /** Without new calls, the pool comes to rest within `Rank` steps, whatever the schedule. */
  lemma {:induction false} RunIsBounded<T>(s: Pool<T>, es: seq<Event<T>>)
    requires Inv(s) && Run(s, es) && InternalRun(es)
    ensures |es| + Rank(After(s, es)) <= Rank(s)
    decreases |es|
  {
    if es != [] {
      assert Internal(es[0]);
      StepRank(s, es[0]);
      NextInv(s, es[0]);
      RunIsBounded(Next(s, es[0]), es[1..]);
    }
  }

  ghost predicate AtRest<T(!new)>(s: Pool<T>)
  {
    forall e :: Internal(e) ==> !Enabled(s, e)
  }

  lemma PushedCanNotify<T(!new)>(s: Pool<T>, c: nat)
    ensures ClientAt(s, c, Pushed) ==> exists e :: Internal(e) && Enabled(s, e)
  {
    if ClientAt(s, c, Pushed) {
      if w :| 0 <= w < |s.workers| && s.workers[w] == Waiting {
        assert Enabled(s, NotifyOne(c, w));
      } else {
        assert Enabled(s, NotifyNobody(c));
      }
    }
  }

  /** No event left for a client, a worker or the destructor narrows down what each can be doing. */
  lemma RestingParts<T(!new)>(s: Pool<T>)
    requires AtRest(s)
    ensures forall c :: 0 <= c < |s.clients| ==> s.clients[c] == Idle || s.clients[c] == Sleeping
    ensures forall w :: 0 <= w < |s.workers| ==> s.workers[w] == Waiting || s.workers[w] == Exited
    ensures s.dtor != StopSet
  {
    forall c | 0 <= c < |s.clients| ensures s.clients[c] == Idle || s.clients[c] == Sleeping {
      assert !Enabled(s, TestDone(c));
      PushedCanNotify(s, c);
    }
    forall w | 0 <= w < |s.workers| ensures s.workers[w] == Waiting || s.workers[w] == Exited {
      assert !Enabled(s, Test(w)) && !Enabled(s, Return(w)) && !Enabled(s, Finish(w));
    }
    assert !Enabled(s, NotifyAll);
  }

  /**
   No deadlock and no lost wake-up: at rest a destructor that started has joined, and every accepted task is complete,
   with no caller left inside `wait_all` or `enqueue`, exactly when no task was pushed after the last worker had left.
   */
  lemma RestMeansDone<T(!new)>(s: Pool<T>)
    requires Inv(s) && AtRest(s)
    ensures s.dtor == NotBegun || s.dtor == Joined
    ensures s.done == multiset(s.accepted) <==> !s.late
    ensures !s.late ==> s.queue == [] && s.active == 0 && forall c :: 0 <= c < |s.clients| ==> s.clients[c] == Idle
  {
    RestingParts(s);
    WeightZero(s.workers, Busy);
    HeldEmpty(s.workers);
    hide Held, Weight;
    assert !Enabled(s, Join);
    assert multiset(s.accepted) == multiset(s.started) + multiset(s.queue);
    assert |multiset(s.accepted)| == |s.done| + |s.queue|;
  }

  /** And from every state some schedule brings it to rest. */
  lemma {:induction false} RestIsReached<T(!new)>(s: Pool<T>) returns (es: seq<Event<T>>)
    requires Inv(s)
    ensures InternalRun(es) && Run(s, es) && AtRest(After(s, es))
    decreases Rank(s)
  {
    if AtRest(s) {
      es := [];
    } else {
      var e :| Internal(e) && Enabled(s, e);
      StepRank(s, e);
      NextInv(s, e);
      hide Inv, Enabled, Next, Internal, AtRest, Rank;
      var more := RestIsReached(Next(s, e));
      es := [e] + more;
      assert es[1..] == more;
    }
  }

  predicate InWaitAll(pc: ClientPc)
  {
    pc == Testing || pc == Sleeping
  }

  /** Once a task is stranded it stays so in every continuation, and no caller inside `wait_all` ever returns. */
  lemma {:induction false} StrandedForever<T>(s: Pool<T>, es: seq<Event<T>>)
    requires Inv(s) && s.late && Run(s, es)
    ensures After(s, es).late && After(s, es).queue != [] && After(s, es).done != multiset(After(s, es).accepted)
    ensures |After(s, es).clients| == |s.clients|
    ensures forall c :: 0 <= c < |s.clients| && InWaitAll(s.clients[c]) ==> InWaitAll(After(s, es).clients[c])
    decreases |es|
  {
    if es == [] {
      StrandedTask(s);
    } else {
      NextInv(s, es[0]);
      StrandedStep(s, es[0]);
      StrandedForever(Next(s, es[0]), es[1..]);
    }
  }

  lemma StrandedTask<T>(s: Pool<T>)
    requires Inv(s) && s.late
    ensures s.queue != [] && s.done != multiset(s.accepted)
  {
    assert multiset(s.accepted) == multiset(s.started) + multiset(s.queue);
    hide Held, Weight;
    assert |multiset(s.accepted)| == |Held(s.workers)| + |s.done| + |s.queue|;
  }

  lemma StrandedStep<T>(s: Pool<T>, e: Event<T>)
    requires Inv(s) && s.late && Enabled(s, e) && (e.Finish? ==> 0 < s.active)
    ensures Next(s, e).late && |Next(s, e).clients| == |s.clients|
    ensures forall c :: 0 <= c < |s.clients| && InWaitAll(s.clients[c]) ==> InWaitAll(Next(s, e).clients[c])
  {
    hide Held, Weight, WokenWorkers;
  }

  /** The waiter of that run is still waiting after any continuation of it. */
  lemma LateWaiterNeverReturns<T>(t: T, es: seq<Event<T>>)
    requires Run(OneWorker([t], Exited, Sleeping, Joining), es)
    ensures var s := After(OneWorker([t], Exited, Sleeping, Joining), es); |s.clients| == 1 && InWaitAll(s.clients[0])
  {
    LateTaskStrands(t);
    InitInv<T>(1, 1);
    RunInv(Init<T>(1, 1), [Stop, NotifyAll, Test(0), Push(0, t), NotifyNobody(0), CallWait(0), TestDone(0)]);
    hide Inv, Run, After;
    StrandedForever(OneWorker([t], Exited, Sleeping, Joining), es);
  }
}
