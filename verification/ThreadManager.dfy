/** The worker pool of sdk/fins/thread_manager.hpp: any number of threads calling enqueue, the four workers and a
    shutdown, interleaved at every check, critical section and notification. */
module ThreadManager {
  import opened Sequences

  const K_THREAD_POOL_SIZE: nat := 4
  const QUEUE_LIMIT: nat := 2048

  type StepId = string

  /** A queued call; `ticket` tells the calls of one step apart. */
  datatype Task = Task(step: StepId, ticket: nat)

  function AffinityIndex(hash: StepId -> nat, step: StepId): (w: nat)
    ensures w < K_THREAD_POOL_SIZE
  {
    hash(step) % K_THREAD_POOL_SIZE
  }

  /** enqueue, sdk/fins/thread_manager.hpp:155-188. */
  datatype Enqueuer =
    | Outside
    | CheckStop(task: Task)
    | CheckPause(task: Task)
    | PushBack(task: Task)
    | NotifyWorker(worker: nat)

  /** worker_loop, sdk/fins/thread_manager.hpp:229-264. */
  datatype WorkerAt = NotStarted | TakeNext | Asleep | Executing(task: Task) | Exited

  /** A worker, everything it accepted and executed, and how much it had accepted when it exited. */
  datatype Worker = Worker(
    at: WorkerAt, queue: seq<Task>, stopFlag: bool, accepted: seq<Task>, executed: seq<Task>, acceptedAtExit: nat)
  {
    function InFlight(): seq<Task> {
      if at.Executing? then [at.task] else []
    }
  }

  /** shutdown, sdk/fins/thread_manager.hpp:136-153. */
  datatype Shutdown = NotCalled | SetFlag(worker: nat) | WakeUp(worker: nat) | Join(worker: nat) | Finished

  datatype State = State(
    workers: seq<Worker>, stopGlobal: bool, paused: bool, droppedCount: nat,
    enqueuers: seq<Enqueuer>, shutdown: Shutdown,
    passed: seq<Task>, dropped: seq<Task>)

  datatype Event =
    | CallEnqueue(id: nat, task: Task)
    | EnqueuerStep(id: nat)
    | StartWorker(worker: nat)
    | WorkerStep(worker: nat)
    | SpuriousWake(worker: nat)
    | CallShutdown
    | ShutdownStep
    | SetPaused(paused: bool)

  function Init(enqueuers: nat): State {
    State(seq(K_THREAD_POOL_SIZE, _ => Worker(NotStarted, [], false, [], [], 0)),
          false, true, 0, seq(enqueuers, _ => Outside), NotCalled, [], [])
  }

  function Step(hash: StepId -> nat, s: State, e: Event): (s': State)
    requires |s.workers| == K_THREAD_POOL_SIZE
    ensures |s'.workers| == K_THREAD_POOL_SIZE
  {
    match e
    case CallEnqueue(id, task) =>
      if id < |s.enqueuers| && s.enqueuers[id].Outside? then s.(enqueuers := s.enqueuers[id := CheckStop(task)]) else s
    case EnqueuerStep(id) => if id < |s.enqueuers| then StepEnqueuer(hash, s, id) else s
    case StartWorker(w) =>
      if w < |s.workers| && s.workers[w].at.NotStarted? && !s.stopGlobal
      then s.(workers := s.workers[w := s.workers[w].(at := TakeNext, stopFlag := false)]) else s
    case WorkerStep(w) =>
      if w < |s.workers| then s.(workers := s.workers[w := StepWorker(s.workers[w], s.stopGlobal)]) else s
    case SpuriousWake(w) => if w < |s.workers| then s.(workers := s.workers[w := Woken(s.workers[w])]) else s
    case CallShutdown => if s.shutdown.NotCalled? then s.(stopGlobal := true, shutdown := SetFlag(0)) else s
    case ShutdownStep => StepShutdown(s)
    case SetPaused(paused) => s.(paused := paused)
  }

  function StepEnqueuer(hash: StepId -> nat, s: State, id: nat): (s': State)
    requires |s.workers| == K_THREAD_POOL_SIZE && id < |s.enqueuers|
    ensures |s'.workers| == K_THREAD_POOL_SIZE
  {
    match s.enqueuers[id]
    case Outside => s
    case CheckStop(task) =>
      if s.stopGlobal then s.(enqueuers := s.enqueuers[id := Outside])
      else s.(enqueuers := s.enqueuers[id := CheckPause(task)], passed := s.passed + [task])
    case CheckPause(task) =>
      if s.paused then Dropped(s, id, task) else s.(enqueuers := s.enqueuers[id := PushBack(task)])
    case PushBack(task) =>
      var w := AffinityIndex(hash, task.step);
      if |s.workers[w].queue| > QUEUE_LIMIT then Dropped(s, id, task)
      else s.(workers := s.workers[w := Accepting(s.workers[w], task)], enqueuers := s.enqueuers[id := NotifyWorker(w)])
    case NotifyWorker(w) =>
      s.(workers := if w < |s.workers| then s.workers[w := Woken(s.workers[w])] else s.workers,
         enqueuers := s.enqueuers[id := Outside])
  }

  function Dropped(s: State, id: nat, task: Task): State
    requires id < |s.enqueuers|
  {
    s.(enqueuers := s.enqueuers[id := Outside], dropped := s.dropped + [task], droppedCount := s.droppedCount + 1)
  }

  function Accepting(w: Worker, task: Task): Worker {
    w.(queue := w.queue + [task], accepted := w.accepted + [task])
  }

  function Woken(w: Worker): Worker {
    if w.at.Asleep? then w.(at := TakeNext) else w
  }

  /** TakeNext is one critical section: the wait predicate, then the exit test, then pop_front. */
  function StepWorker(w: Worker, stopGlobal: bool): Worker {
    match w.at
    case TakeNext =>
      if w.queue != [] then w.(at := Executing(w.queue[0]), queue := w.queue[1..])
      else if w.stopFlag || stopGlobal then w.(at := Exited, acceptedAtExit := |w.accepted|)
      else w.(at := Asleep)
    case Executing(task) => w.(at := TakeNext, executed := w.executed + [task])
    case _ => w
  }

  function StepShutdown(s: State): (s': State)
    requires |s.workers| == K_THREAD_POOL_SIZE
    ensures |s'.workers| == K_THREAD_POOL_SIZE
  {
    match s.shutdown
    case NotCalled => s
    case SetFlag(w) =>
      if w < |s.workers| then s.(workers := s.workers[w := s.workers[w].(stopFlag := true)], shutdown := WakeUp(w))
      else s.(shutdown := Join(0))
    case WakeUp(w) =>
      s.(workers := if w < |s.workers| then s.workers[w := Woken(s.workers[w])] else s.workers,
         shutdown := SetFlag(w + 1))
    case Join(w) =>
      if w >= |s.workers| then s.(shutdown := Finished)
      else if s.workers[w].at.NotStarted? || s.workers[w].at.Exited? then s.(shutdown := Join(w + 1))
      else s
    case Finished => s
  }

  function Exec(hash: StepId -> nat, s: State, events: seq<Event>): (s': State)
    requires |s.workers| == K_THREAD_POOL_SIZE
    ensures |s'.workers| == K_THREAD_POOL_SIZE
  {
    if events == [] then s else Step(hash, Exec(hash, s, events[..|events| - 1]), events[|events| - 1])
  }

  // ---------- the invariant ----------

  /** Executed, then in flight, then queued: the accepted tasks in order. A worker leaves only an emptied queue. */
  ghost predicate InOrder(w: Worker) {
    && w.accepted == w.executed + w.InFlight() + w.queue
    && |w.queue| <= QUEUE_LIMIT + 1
    && (w.at.Exited? ==> w.acceptedAtExit <= |w.accepted| && w.executed == w.accepted[..w.acceptedAtExit])
  }

  ghost predicate Homed(hash: StepId -> nat, w: Worker, index: nat) {
    forall k :: 0 <= k < |w.accepted| ==> AffinityIndex(hash, w.accepted[k].step) == index
  }

  ghost predicate PoolInv(hash: StepId -> nat, s: State) {
    && |s.workers| == K_THREAD_POOL_SIZE
    && (forall w :: 0 <= w < |s.workers| ==> InOrder(s.workers[w]) && Homed(hash, s.workers[w], w))
  }

  /** Changing one worker without accepting anything. */
  lemma WorkerChangeKeeps(hash: StepId -> nat, s: State, id: nat, w: Worker)
    requires PoolInv(hash, s) && id < |s.workers| && InOrder(w) && w.accepted == s.workers[id].accepted
    ensures PoolInv(hash, s.(workers := s.workers[id := w]))
  {
    assert Homed(hash, s.workers[id], id);
    assert Homed(hash, w, id);
  }

  lemma WorkerStepKeeps(w: Worker, stopGlobal: bool)
    requires InOrder(w)
    ensures InOrder(StepWorker(w, stopGlobal)) && StepWorker(w, stopGlobal).accepted == w.accepted
  {
    var v := StepWorker(w, stopGlobal);
    if w.at.TakeNext? && w.queue != [] {
      assert [w.queue[0]] + w.queue[1..] == w.queue;
      assert v.executed + v.InFlight() + v.queue == w.executed + ([w.queue[0]] + w.queue[1..]);
    } else if w.at.TakeNext? {
      assert w.accepted[..|w.accepted|] == w.executed;
    }
  }

  lemma AcceptingKeeps(hash: StepId -> nat, w: Worker, index: nat, task: Task)
    requires InOrder(w) && Homed(hash, w, index) && |w.queue| <= QUEUE_LIMIT
    requires AffinityIndex(hash, task.step) == index
    ensures InOrder(Accepting(w, task)) && Homed(hash, Accepting(w, task), index)
  {
    var v := Accepting(w, task);
    assert v.accepted == v.executed + v.InFlight() + v.queue;
    if w.at.Exited? {
      assert v.accepted[..v.acceptedAtExit] == w.accepted[..w.acceptedAtExit];
    }
  }

  lemma EnqueuerStepKeeps(hash: StepId -> nat, s: State, id: nat)
    requires PoolInv(hash, s) && id < |s.enqueuers|
    ensures PoolInv(hash, StepEnqueuer(hash, s, id))
  {
    match s.enqueuers[id]
    case PushBack(task) =>
      var w := AffinityIndex(hash, task.step);
      if |s.workers[w].queue| <= QUEUE_LIMIT {
        AcceptingKeeps(hash, s.workers[w], w, task);
      }
    case NotifyWorker(w) =>
      if w < |s.workers| {
        WorkerChangeKeeps(hash, s, w, Woken(s.workers[w]));
      }
    case _ =>
  }

  lemma StepKeeps(hash: StepId -> nat, s: State, e: Event)
    requires PoolInv(hash, s)
    ensures PoolInv(hash, Step(hash, s, e))
  {
    match e
    case EnqueuerStep(id) =>
      if id < |s.enqueuers| {
        EnqueuerStepKeeps(hash, s, id);
      }
    case StartWorker(w) =>
      if w < |s.workers| && s.workers[w].at.NotStarted? {
        WorkerChangeKeeps(hash, s, w, s.workers[w].(at := TakeNext, stopFlag := false));
      }
    case WorkerStep(w) =>
      if w < |s.workers| {
        WorkerStepKeeps(s.workers[w], s.stopGlobal);
        WorkerChangeKeeps(hash, s, w, StepWorker(s.workers[w], s.stopGlobal));
      }
    case SpuriousWake(w) =>
      if w < |s.workers| {
        WorkerChangeKeeps(hash, s, w, Woken(s.workers[w]));
      }
    case ShutdownStep =>
      if s.shutdown.SetFlag? && s.shutdown.worker < |s.workers| {
        WorkerChangeKeeps(hash, s, s.shutdown.worker, s.workers[s.shutdown.worker].(stopFlag := true));
      } else if s.shutdown.WakeUp? && s.shutdown.worker < |s.workers| {
        WorkerChangeKeeps(hash, s, s.shutdown.worker, Woken(s.workers[s.shutdown.worker]));
      }
    case _ =>
  }

  /** The invariant holds in every reachable state. */
  lemma {:induction false} RunKeeps(hash: StepId -> nat, enqueuers: nat, events: seq<Event>)
    ensures PoolInv(hash, Exec(hash, Init(enqueuers), events))
  {
    if events != [] {
      RunKeeps(hash, enqueuers, events[..|events| - 1]);
      StepKeeps(hash, Exec(hash, Init(enqueuers), events[..|events| - 1]), events[|events| - 1]);
    }
  }

  // ---------- serialization per step ----------

  /** The tasks of one step, in order. */
  function OfStep(tasks: seq<Task>, step: StepId): (r: seq<Task>) {
    if tasks == [] then []
    else OfStep(tasks[..|tasks| - 1], step) + if tasks[|tasks| - 1].step == step then [tasks[|tasks| - 1]] else []
  }

  predicate Runs(w: Worker, step: StepId) {
    w.at.Executing? && w.at.task.step == step
  }

  lemma {:induction false} OfStepConcat(a: seq<Task>, b: seq<Task>, step: StepId)
    ensures OfStep(a + b, step) == OfStep(a, step) + OfStep(b, step)
  {
    if b == [] {
      assert a + b == a;
    } else {
      OfStepConcat(a, b[..|b| - 1], step);
      SplitLast(a, b);
      Associates(OfStep(a, step), OfStep(b[..|b| - 1], step), if b[|b| - 1].step == step then [b[|b| - 1]] else []);
    }
  }

  lemma {:induction false} OfStepNone(tasks: seq<Task>, step: StepId)
    requires forall k :: 0 <= k < |tasks| ==> tasks[k].step != step
    ensures OfStep(tasks, step) == []
  {
    if tasks != [] {
      OfStepNone(tasks[..|tasks| - 1], step);
    }
  }

  /** In every reachable state: at most one task of a step is in flight in the whole pool, all of the step's tasks
      are with one worker, and its executed, in-flight and queued tasks are its accepted tasks in order. */
  lemma StepsAreSerialized(hash: StepId -> nat, enqueuers: nat, events: seq<Event>, step: StepId)
    ensures var s := Exec(hash, Init(enqueuers), events);
            var home := s.workers[AffinityIndex(hash, step)];
            && OfStep(home.executed, step) + OfStep(home.InFlight(), step) + OfStep(home.queue, step)
               == OfStep(home.accepted, step)
            && (forall w :: 0 <= w < |s.workers| && w != AffinityIndex(hash, step) ==>
                  OfStep(s.workers[w].accepted, step) == [])
            && (forall v, w | 0 <= v < |s.workers| && 0 <= w < |s.workers| ::
                  Runs(s.workers[v], step) && Runs(s.workers[w], step) ==> v == w)
  {
    RunKeeps(hash, enqueuers, events);
    var s := Exec(hash, Init(enqueuers), events);
    var home := s.workers[AffinityIndex(hash, step)];
    OfStepConcat(home.executed + home.InFlight(), home.queue, step);
    OfStepConcat(home.executed, home.InFlight(), step);
    forall w | 0 <= w < |s.workers| && w != AffinityIndex(hash, step)
      ensures OfStep(s.workers[w].accepted, step) == []
    {
      assert Homed(hash, s.workers[w], w);
      OfStepNone(s.workers[w].accepted, step);
    }
    forall w | 0 <= w < |s.workers| && Runs(s.workers[w], step)
      ensures w == AffinityIndex(hash, step)
    {
      assert Homed(hash, s.workers[w], w) && InOrder(s.workers[w]);
      assert s.workers[w].accepted[|s.workers[w].executed|] == s.workers[w].at.task;
    }
  }

  // ---------- conservation ----------

  function Times(tasks: seq<Task>, x: Task): nat {
    if tasks == [] then 0 else Times(tasks[..|tasks| - 1], x) + if tasks[|tasks| - 1] == x then 1 else 0
  }

  lemma TimesAppend(tasks: seq<Task>, task: Task, x: Task)
    ensures Times(tasks + [task], x) == Times(tasks, x) + if task == x then 1 else 0
  {
    assert (tasks + [task])[..|tasks|] == tasks;
  }

  lemma {:induction false} TimesConcat(a: seq<Task>, b: seq<Task>, x: Task)
    ensures Times(a + b, x) == Times(a, x) + Times(b, x)
  {
    if b == [] {
      assert a + b == a;
    } else {
      TimesConcat(a, b[..|b| - 1], x);
      SplitLast(a, b);
    }
  }

  /** An enqueue of `x` that has passed the stop check and not yet been pushed or dropped. */
  function PendingAt(e: Enqueuer, x: Task): nat {
    if (e.CheckPause? || e.PushBack?) && e.task == x then 1 else 0
  }

  function Pending(enqueuers: seq<Enqueuer>, x: Task): nat {
    if enqueuers == [] then 0
    else Pending(enqueuers[..|enqueuers| - 1], x) + PendingAt(enqueuers[|enqueuers| - 1], x)
  }

  function Accepted(workers: seq<Worker>, x: Task): nat {
    if workers == [] then 0
    else Accepted(workers[..|workers| - 1], x) + Times(workers[|workers| - 1].accepted, x)
  }

  /** Every enqueue of `x` that passed the stop check is pending, accepted by a worker, or dropped. */
  ghost predicate Conserved(s: State, x: Task) {
    Times(s.passed, x) == Pending(s.enqueuers, x) + Accepted(s.workers, x) + Times(s.dropped, x)
  }

  lemma {:induction false} PendingUpdate(enqueuers: seq<Enqueuer>, id: nat, e: Enqueuer, x: Task)
    requires id < |enqueuers|
    ensures Pending(enqueuers[id := e], x) == Pending(enqueuers, x) - PendingAt(enqueuers[id], x) + PendingAt(e, x)
  {
    var last := |enqueuers| - 1;
    if id < last {
      PendingUpdate(enqueuers[..last], id, e, x);
      assert enqueuers[id := e][..last] == enqueuers[..last][id := e];
    } else {
      assert enqueuers[id := e][..last] == enqueuers[..last];
    }
  }

  lemma {:induction false} AcceptedUpdate(workers: seq<Worker>, id: nat, w: Worker, x: Task)
    requires id < |workers|
    ensures Accepted(workers[id := w], x)
            == Accepted(workers, x) - Times(workers[id].accepted, x) + Times(w.accepted, x)
  {
    var last := |workers| - 1;
    if id < last {
      AcceptedUpdate(workers[..last], id, w, x);
      assert workers[id := w][..last] == workers[..last][id := w];
    } else {
      assert workers[id := w][..last] == workers[..last];
    }
  }

  /** A change of one worker that accepts nothing. */
  lemma WorkerChangeConserves(s: State, id: nat, w: Worker, x: Task)
    requires Conserved(s, x) && id < |s.workers| && w.accepted == s.workers[id].accepted
    ensures Conserved(s.(workers := s.workers[id := w]), x)
  {
    AcceptedUpdate(s.workers, id, w, x);
  }

  /** A change of one enqueuer that moves no task. */
  lemma EnqueuerChangeConserves(s: State, id: nat, e: Enqueuer, x: Task)
    requires Conserved(s, x) && id < |s.enqueuers| && PendingAt(e, x) == PendingAt(s.enqueuers[id], x)
    ensures Conserved(s.(enqueuers := s.enqueuers[id := e]), x)
  {
    PendingUpdate(s.enqueuers, id, e, x);
  }

  lemma DroppedConserves(s: State, id: nat, x: Task)
    requires Conserved(s, x) && id < |s.enqueuers| && (s.enqueuers[id].CheckPause? || s.enqueuers[id].PushBack?)
    ensures Conserved(Dropped(s, id, s.enqueuers[id].task), x)
  {
    TimesAppend(s.dropped, s.enqueuers[id].task, x);
    PendingUpdate(s.enqueuers, id, Outside, x);
  }

  lemma PushedConserves(s: State, id: nat, w: nat, x: Task)
    requires Conserved(s, x) && id < |s.enqueuers| && s.enqueuers[id].PushBack? && w < |s.workers|
    ensures Conserved(s.(workers := s.workers[w := Accepting(s.workers[w], s.enqueuers[id].task)],
                         enqueuers := s.enqueuers[id := NotifyWorker(w)]), x)
  {
    TimesAppend(s.workers[w].accepted, s.enqueuers[id].task, x);
    AcceptedUpdate(s.workers, w, Accepting(s.workers[w], s.enqueuers[id].task), x);
    PendingUpdate(s.enqueuers, id, NotifyWorker(w), x);
  }

  lemma EnqueuerConserves(hash: StepId -> nat, s: State, id: nat, x: Task)
    requires |s.workers| == K_THREAD_POOL_SIZE && id < |s.enqueuers| && Conserved(s, x)
    ensures Conserved(StepEnqueuer(hash, s, id), x)
  {
    match s.enqueuers[id]
    case Outside =>
    case CheckStop(task) =>
      if s.stopGlobal {
        EnqueuerChangeConserves(s, id, Outside, x);
      } else {
        TimesAppend(s.passed, task, x);
        PendingUpdate(s.enqueuers, id, CheckPause(task), x);
      }
    case CheckPause(task) =>
      DroppedConserves(s, id, x);
      EnqueuerChangeConserves(s, id, PushBack(task), x);
    case PushBack(task) =>
      DroppedConserves(s, id, x);
      PushedConserves(s, id, AffinityIndex(hash, task.step), x);
    case NotifyWorker(w) =>
      EnqueuerChangeConserves(s, id, Outside, x);
      if w < |s.workers| {
        WorkerChangeConserves(s.(enqueuers := s.enqueuers[id := Outside]), w, Woken(s.workers[w]), x);
      }
  }

  lemma StepConserves(hash: StepId -> nat, s: State, e: Event, x: Task)
    requires |s.workers| == K_THREAD_POOL_SIZE && Conserved(s, x)
    ensures Conserved(Step(hash, s, e), x)
  {
    match e
    case CallEnqueue(id, task) =>
      if id < |s.enqueuers| && s.enqueuers[id].Outside? {
        EnqueuerChangeConserves(s, id, CheckStop(task), x);
      }
    case EnqueuerStep(id) =>
      if id < |s.enqueuers| {
        EnqueuerConserves(hash, s, id, x);
      }
    case StartWorker(w) =>
      if w < |s.workers| {
        WorkerChangeConserves(s, w, s.workers[w].(at := TakeNext, stopFlag := false), x);
      }
    case WorkerStep(w) =>
      if w < |s.workers| {
        WorkerChangeConserves(s, w, StepWorker(s.workers[w], s.stopGlobal), x);
      }
    case SpuriousWake(w) =>
      if w < |s.workers| {
        WorkerChangeConserves(s, w, Woken(s.workers[w]), x);
      }
    case ShutdownStep =>
      if s.shutdown.SetFlag? && s.shutdown.worker < |s.workers| {
        WorkerChangeConserves(s, s.shutdown.worker, s.workers[s.shutdown.worker].(stopFlag := true), x);
      } else if s.shutdown.WakeUp? && s.shutdown.worker < |s.workers| {
        WorkerChangeConserves(s, s.shutdown.worker, Woken(s.workers[s.shutdown.worker]), x);
      }
    case _ =>
  }

  /** The counter is the number of drops. */
  lemma StepCountsDrops(hash: StepId -> nat, s: State, e: Event)
    requires |s.workers| == K_THREAD_POOL_SIZE && s.droppedCount == |s.dropped|
    ensures Step(hash, s, e).droppedCount == |Step(hash, s, e).dropped|
  {
  }

  lemma {:induction false} NoneAccepted(workers: seq<Worker>, x: Task)
    requires forall w :: 0 <= w < |workers| ==> workers[w].accepted == []
    ensures Accepted(workers, x) == 0
  {
    if workers != [] {
      NoneAccepted(workers[..|workers| - 1], x);
    }
  }

  lemma {:induction false} InitConserves(n: nat, x: Task)
    ensures Pending(seq(n, _ => Outside), x) == 0
  {
    if n > 0 {
      InitConserves(n - 1, x);
      assert seq(n, _ => Outside)[..n - 1] == seq(n - 1, _ => Outside);
    }
  }

  lemma {:induction false} RunConserves(hash: StepId -> nat, enqueuers: nat, events: seq<Event>, x: Task)
    ensures var s := Exec(hash, Init(enqueuers), events);
            Conserved(s, x) && s.droppedCount == |s.dropped|
  {
    if events == [] {
      InitConserves(enqueuers, x);
      NoneAccepted(Init(enqueuers).workers, x);
    } else {
      RunConserves(hash, enqueuers, events[..|events| - 1], x);
      StepConserves(hash, Exec(hash, Init(enqueuers), events[..|events| - 1]), events[|events| - 1], x);
      StepCountsDrops(hash, Exec(hash, Init(enqueuers), events[..|events| - 1]), events[|events| - 1]);
    }
  }

  /** What a worker accepted, it has executed, is executing or still holds. */
  lemma WorkerConserves(hash: StepId -> nat, enqueuers: nat, events: seq<Event>, w: nat, x: Task)
    requires w < K_THREAD_POOL_SIZE
    ensures var worker := Exec(hash, Init(enqueuers), events).workers[w];
            && Times(worker.accepted, x)
               == Times(worker.executed, x) + Times(worker.InFlight(), x) + Times(worker.queue, x)
            && |worker.queue| <= 2049
  {
    RunKeeps(hash, enqueuers, events);
    var worker := Exec(hash, Init(enqueuers), events).workers[w];
    assert InOrder(worker);
    TimesConcat(worker.executed + worker.InFlight(), worker.queue, x);
    TimesConcat(worker.executed, worker.InFlight(), x);
  }

  // ---------- sleeping and shutting down ----------

  /** The shutdown has still to wake worker `w`. */
  predicate WakeToCome(shutdown: Shutdown, w: nat) {
    match shutdown
    case SetFlag(v) => v <= w
    case WakeUp(v) => v <= w
    case _ => false
  }

  ghost predicate NotifyOwed(s: State, w: nat) {
    WakeToCome(s.shutdown, w) || exists i :: 0 <= i < |s.enqueuers| && s.enqueuers[i] == NotifyWorker(w)
  }

  predicate Gone(at: WorkerAt) {
    at.NotStarted? || at.Exited?
  }

  ghost predicate SleepersOwed(s: State) {
    forall w :: 0 <= w < |s.workers| && s.workers[w].at.Asleep? && (s.workers[w].queue != [] || s.stopGlobal)
      ==> NotifyOwed(s, w)
  }

  ghost predicate ShutdownFits(s: State) {
    && |s.workers| == K_THREAD_POOL_SIZE
    && (s.stopGlobal <==> !s.shutdown.NotCalled?)
    && (forall w | 0 <= w < |s.workers| :: s.workers[w].at.Exited? || s.workers[w].stopFlag ==> s.stopGlobal)
    && (s.shutdown.Join? ==> forall w :: 0 <= w < s.shutdown.worker && w < |s.workers| ==> Gone(s.workers[w].at))
    && (s.shutdown.Finished? ==> forall w :: 0 <= w < |s.workers| ==> Gone(s.workers[w].at))
  }

  ghost predicate SleepInv(s: State) {
    SleepersOwed(s) && ShutdownFits(s)
  }

  lemma EnqueuerOwes(hash: StepId -> nat, s: State, id: nat, w: nat)
    requires |s.workers| == K_THREAD_POOL_SIZE && id < |s.enqueuers| && NotifyOwed(s, w)
    requires s.enqueuers[id] != NotifyWorker(w)
    ensures NotifyOwed(StepEnqueuer(hash, s, id), w)
  {
    var t := StepEnqueuer(hash, s, id);
    if !WakeToCome(s.shutdown, w) {
      var i :| 0 <= i < |s.enqueuers| && s.enqueuers[i] == NotifyWorker(w);
      assert t.enqueuers[i] == NotifyWorker(w);
    }
  }

  lemma EnqueuerShutdownFits(hash: StepId -> nat, s: State, id: nat)
    requires ShutdownFits(s) && id < |s.enqueuers|
    ensures ShutdownFits(StepEnqueuer(hash, s, id))
  {
  }

  lemma EnqueuerStepSleeps(hash: StepId -> nat, s: State, id: nat)
    requires SleepInv(s) && id < |s.enqueuers|
    ensures SleepInv(StepEnqueuer(hash, s, id))
  {
    var t := StepEnqueuer(hash, s, id);
    EnqueuerShutdownFits(hash, s, id);
    forall w | 0 <= w < |t.workers| && t.workers[w].at.Asleep? && (t.workers[w].queue != [] || t.stopGlobal)
      ensures NotifyOwed(t, w)
    {
      EnqueuerSleeper(hash, s, id, w);
    }
  }

  lemma EnqueuerSleeper(hash: StepId -> nat, s: State, id: nat, w: nat)
    requires SleepersOwed(s) && |s.workers| == K_THREAD_POOL_SIZE && id < |s.enqueuers| && w < |s.workers|
    requires var t := StepEnqueuer(hash, s, id);
             t.workers[w].at.Asleep? && (t.workers[w].queue != [] || t.stopGlobal)
    ensures NotifyOwed(StepEnqueuer(hash, s, id), w)
  {
    var t := StepEnqueuer(hash, s, id);
    if t.workers[w] != s.workers[w] {
      assert t.enqueuers[id] == NotifyWorker(w);
    } else {
      EnqueuerOwes(hash, s, id, w);
    }
  }

  lemma CallSleeps(hash: StepId -> nat, s: State, id: nat, task: Task)
    requires SleepInv(s)
    ensures SleepInv(Step(hash, s, CallEnqueue(id, task)))
  {
    var t := Step(hash, s, CallEnqueue(id, task));
    forall w | 0 <= w < |s.workers| && NotifyOwed(s, w) ensures NotifyOwed(t, w) {
      if !WakeToCome(s.shutdown, w) {
        var i :| 0 <= i < |s.enqueuers| && s.enqueuers[i] == NotifyWorker(w);
        assert t.enqueuers[i] == NotifyWorker(w);
      }
    }
  }

  lemma ShutdownSleeps(hash: StepId -> nat, s: State)
    requires SleepInv(s)
    ensures SleepInv(StepShutdown(s))
  {
    var t := StepShutdown(s);
    assert t.enqueuers == s.enqueuers && t.stopGlobal == s.stopGlobal;
    forall w | 0 <= w < |t.workers| && t.workers[w].at.Asleep? && (t.workers[w].queue != [] || t.stopGlobal)
      ensures NotifyOwed(t, w)
    {
      assert s.workers[w].at.Asleep? && NotifyOwed(s, w);
    }
  }

  /** Replacing one worker; a worker goes to sleep only with nothing to do. */
  lemma WorkerSleeps(s: State, id: nat, v: Worker)
    requires SleepInv(s) && id < |s.workers|
    requires v.at.Asleep? && (v.queue != [] || s.stopGlobal)
             ==> s.workers[id].at.Asleep? && v.queue == s.workers[id].queue
    requires v.at.Exited? || v.stopFlag ==> s.stopGlobal
    requires Gone(s.workers[id].at) && s.stopGlobal ==> Gone(v.at)
    ensures SleepInv(s.(workers := s.workers[id := v]))
  {
    var t := s.(workers := s.workers[id := v]);
    forall w | 0 <= w < |t.workers| && t.workers[w].at.Asleep? && (t.workers[w].queue != [] || t.stopGlobal)
      ensures NotifyOwed(t, w)
    {
      assert s.workers[w].at.Asleep? && NotifyOwed(s, w);
    }
  }

  lemma StepSleeps(hash: StepId -> nat, s: State, e: Event)
    requires SleepInv(s)
    ensures SleepInv(Step(hash, s, e))
  {
    match e
    case EnqueuerStep(id) =>
      if id < |s.enqueuers| {
        EnqueuerStepSleeps(hash, s, id);
      }
    case CallEnqueue(id, task) => CallSleeps(hash, s, id, task);
    case ShutdownStep => ShutdownSleeps(hash, s);
    case WorkerStep(w) =>
      if w < |s.workers| {
        WorkerSleeps(s, w, StepWorker(s.workers[w], s.stopGlobal));
      }
    case SpuriousWake(w) =>
      if w < |s.workers| {
        WorkerSleeps(s, w, Woken(s.workers[w]));
      }
    case StartWorker(w) =>
      if w < |s.workers| && !s.stopGlobal {
        WorkerSleeps(s, w, s.workers[w].(at := TakeNext, stopFlag := false));
      }
    case CallShutdown => CallShutdownSleeps(hash, s);
    case SetPaused(paused) => assert forall w | NotifyOwed(s, w) :: NotifyOwed(Step(hash, s, e), w);
  }

  lemma CallShutdownSleeps(hash: StepId -> nat, s: State)
    requires SleepInv(s)
    ensures SleepInv(Step(hash, s, CallShutdown))
  {
    var t := Step(hash, s, CallShutdown);
    assert forall w: nat :: WakeToCome(SetFlag(0), w);
    assert s.shutdown.NotCalled? ==> forall w: nat | 0 <= w < |t.workers| :: NotifyOwed(t, w);
  }

  /** No worker sleeps on a queued task or through a shutdown without a notify on its way to it. */
  lemma {:induction false} NoLostWakeup(hash: StepId -> nat, enqueuers: nat, events: seq<Event>)
    ensures SleepInv(Exec(hash, Init(enqueuers), events))
  {
    if events != [] {
      NoLostWakeup(hash, enqueuers, events[..|events| - 1]);
      StepSleeps(hash, Exec(hash, Init(enqueuers), events[..|events| - 1]), events[|events| - 1]);
    }
  }

  lemma StepFreezes(hash: StepId -> nat, s: State, e: Event)
    requires |s.workers| == K_THREAD_POOL_SIZE && s.stopGlobal
    ensures Step(hash, s, e).stopGlobal && Step(hash, s, e).passed == s.passed
  {
  }

  /** Once stop is set, no further enqueue passes the stop check. */
  lemma {:induction false} StopFreezes(hash: StepId -> nat, s: State, events: seq<Event>)
    requires |s.workers| == K_THREAD_POOL_SIZE && s.stopGlobal
    ensures Exec(hash, s, events).stopGlobal && Exec(hash, s, events).passed == s.passed
  {
    if events != [] {
      StopFreezes(hash, s, events[..|events| - 1]);
      StepFreezes(hash, Exec(hash, s, events[..|events| - 1]), events[|events| - 1]);
    }
  }

  lemma {:induction false} ExecConcat(hash: StepId -> nat, s: State, a: seq<Event>, b: seq<Event>)
    requires |s.workers| == K_THREAD_POOL_SIZE
    ensures Exec(hash, s, a + b) == Exec(hash, Exec(hash, s, a), b)
  {
    if b == [] {
      assert a + b == a;
    } else {
      ExecConcat(hash, s, a, b[..|b| - 1]);
      SplitLast(a, b);
    }
  }

  lemma {:induction false} TimesPositive(tasks: seq<Task>, k: nat)
    requires k < |tasks|
    ensures Times(tasks, tasks[k]) > 0
  {
    if k < |tasks| - 1 {
      TimesPositive(tasks[..|tasks| - 1], k);
    }
  }

  lemma {:induction false} AcceptedAtLeast(workers: seq<Worker>, w: nat, x: Task)
    requires w < |workers|
    ensures Accepted(workers, x) >= Times(workers[w].accepted, x)
  {
    if w < |workers| - 1 {
      AcceptedAtLeast(workers[..|workers| - 1], w, x);
    }
  }

  /** After a finished shutdown every worker that ran has exited, having executed everything it had accepted by
      then; what is left in a queue was enqueued by calls that passed the stop check before stop was set. */
  lemma ShutdownDrains(hash: StepId -> nat, enqueuers: nat, before: seq<Event>, after: seq<Event>, w: nat)
    requires w < K_THREAD_POOL_SIZE
    requires !Exec(hash, Init(enqueuers), before).stopGlobal
    requires Exec(hash, Init(enqueuers), before + [CallShutdown] + after).shutdown.Finished?
    ensures var worker := Exec(hash, Init(enqueuers), before + [CallShutdown] + after).workers[w];
            && Gone(worker.at)
            && (worker.at.Exited? ==> worker.acceptedAtExit <= |worker.accepted|
                                      && worker.executed == worker.accepted[..worker.acceptedAtExit]
                                      && worker.queue == worker.accepted[worker.acceptedAtExit..])
            && (forall k :: 0 <= k < |worker.queue| ==>
                  Times(Exec(hash, Init(enqueuers), before).passed, worker.queue[k]) > 0)
  {
    var events := before + [CallShutdown] + after;
    var s := Exec(hash, Init(enqueuers), events);
    RunKeeps(hash, enqueuers, events);
    NoLostWakeup(hash, enqueuers, events);
    NoLostWakeup(hash, enqueuers, before);
    var worker := s.workers[w];
    assert InOrder(worker) && Gone(worker.at);
    var t := Exec(hash, Init(enqueuers), before);
    ExecConcat(hash, Init(enqueuers), before, [CallShutdown]);
    ExecConcat(hash, Init(enqueuers), before + [CallShutdown], after);
    assert Exec(hash, t, [CallShutdown]) == Step(hash, Exec(hash, t, []), CallShutdown) by {
      assert [CallShutdown][..0] == [];
    }
    StopFreezes(hash, Exec(hash, Init(enqueuers), before + [CallShutdown]), after);
    assert s.passed == t.passed;
    forall k | 0 <= k < |worker.queue| ensures Times(t.passed, worker.queue[k]) > 0 {
      var x := worker.queue[k];
      TimesPositive(worker.queue, k);
      WorkerConserves(hash, enqueuers, events, w, x);
      RunConserves(hash, enqueuers, events, x);
      AcceptedAtLeast(s.workers, w, x);
    }
  }

  // ---------- the critical sections as code ----------

  /** A worker's queue and flags. Each method is one critical section of its mutex. */
  class WorkerThread {
    var at: WorkerAt
    var queue: seq<Task>
    var stopFlag: bool
    ghost var accepted: seq<Task>
    ghost var executed: seq<Task>
    ghost var acceptedAtExit: nat

    ghost function View(): Worker
      reads this
    {
      Worker(at, queue, stopFlag, accepted, executed, acceptedAtExit)
    }

    constructor ()
      ensures View() == Worker(NotStarted, [], false, [], [], 0)
    {
      at, queue, stopFlag, accepted, executed, acceptedAtExit := NotStarted, [], false, [], [], 0;
    }

    /** The end of enqueue: a full queue drops the task. */
    method Enqueue(task: Task) returns (ok: bool)
      requires InOrder(View())
      modifies this`queue, this`accepted
      ensures InOrder(View()) && ok == (|old(queue)| <= QUEUE_LIMIT)
      ensures View() == if ok then Accepting(old(View()), task) else old(View())
    {
      if |queue| > QUEUE_LIMIT {
        return false;
      }
      queue, accepted := queue + [task], accepted + [task];
      assert accepted == executed + View().InFlight() + queue;
      return true;
    }

    /** worker_loop from its wait to the unlock, or to the sleep if there is nothing to do. */
    method TakeNext(stopGlobal: bool)
      requires InOrder(View()) && at.TakeNext?
      modifies this`at, this`queue, this`acceptedAtExit
      ensures InOrder(View()) && View() == StepWorker(old(View()), stopGlobal)
    {
      WorkerStepKeeps(View(), stopGlobal);
      if queue == [] && !(stopFlag || stopGlobal) {
        at := Asleep;
        return;
      }
      if queue == [] {
        at, acceptedAtExit := Exited, |accepted|;
        return;
      }
      at, queue := Executing(queue[0]), queue[1..];
    }
  }

  // ---------- one enqueue, from the call to its end ----------

  /** Nothing is queued and nothing counted once stop is set. */
  lemma StoppedEnqueue(hash: StepId -> nat, s: State, id: nat, task: Task)
    requires |s.workers| == 4 && id < |s.enqueuers| && s.enqueuers[id].Outside? && s.stopGlobal
    ensures Exec(hash, s, [CallEnqueue(id, task), EnqueuerStep(id)]) == s
  {
    ExecOne(hash, s, CallEnqueue(id, task));
    ExecMore(hash, s, [CallEnqueue(id, task)], EnqueuerStep(id));
    assert s.enqueuers[id := CheckStop(task)][id := Outside] == s.enqueuers;
  }

  lemma ExecOne(hash: StepId -> nat, s: State, e: Event)
    requires |s.workers| == 4
    ensures Exec(hash, s, [e]) == Step(hash, s, e)
  {
    assert [e][..0] == [];
  }

  lemma ExecMore(hash: StepId -> nat, s: State, events: seq<Event>, e: Event)
    requires |s.workers| == 4
    ensures Exec(hash, s, events + [e]) == Step(hash, Exec(hash, s, events), e)
  {
    assert (events + [e])[..|events + [e]| - 1] == events;
  }

  /** The state after a call has passed the stop check and come to its pause check. */
  function PastStop(s: State, id: nat, task: Task): State
    requires id < |s.enqueuers|
  {
    s.(enqueuers := s.enqueuers[id := CheckPause(task)], passed := s.passed + [task])
  }

  lemma EnqueuePasses(hash: StepId -> nat, s: State, id: nat, task: Task)
    requires |s.workers| == 4 && id < |s.enqueuers| && s.enqueuers[id].Outside? && !s.stopGlobal
    ensures Exec(hash, s, [CallEnqueue(id, task)] + [EnqueuerStep(id)]) == PastStop(s, id, task)
  {
    ExecOne(hash, s, CallEnqueue(id, task));
    ExecMore(hash, s, [CallEnqueue(id, task)], EnqueuerStep(id));
    assert s.enqueuers[id := CheckStop(task)][id := CheckPause(task)] == s.enqueuers[id := CheckPause(task)];
  }

  /** A call that has passed the stop check drops its task exactly if the manager is paused or the task's worker has
      more than 2048 queued; else the task is queued last with the worker its step is bound to, who is woken. */
  lemma EnqueueEnds(hash: StepId -> nat, s: State, id: nat, task: Task)
    requires |s.workers| == 4 && id < |s.enqueuers| && s.enqueuers[id] == CheckPause(task)
    ensures var w := hash(task.step) % 4;
            var worker := s.workers[w];
            var back := s.enqueuers[id := Outside];
            var t := Step(hash, s, EnqueuerStep(id));
            if s.paused then
              t == s.(enqueuers := back, dropped := s.dropped + [task], droppedCount := s.droppedCount + 1)
            else
              |t.workers| == 4
              && var t2 := Step(hash, t, EnqueuerStep(id));
                 if |worker.queue| > 2048 then
                   t2 == s.(enqueuers := back, dropped := s.dropped + [task], droppedCount := s.droppedCount + 1)
                 else
                   |t2.workers| == 4
                   && Step(hash, t2, EnqueuerStep(id))
                      == s.(enqueuers := back, workers := s.workers[w := worker.(
                              queue := worker.queue + [task], accepted := worker.accepted + [task],
                              at := if worker.at.Asleep? then TakeNext else worker.at)])
  {
    var w := hash(task.step) % 4;
    var t := Step(hash, s, EnqueuerStep(id));
    if !s.paused {
      assert t.enqueuers[id := Outside] == s.enqueuers[id := Outside];
      var t2 := Step(hash, t, EnqueuerStep(id));
      if |s.workers[w].queue| <= 2048 {
        assert t2.enqueuers[id := Outside] == s.enqueuers[id := Outside];
        var woken := Woken(t2.workers[w]);
        assert t2.workers[w := woken] == s.workers[w := woken];
      }
    }
  }

  /** A step drops a task only there. */
  lemma DropsOnly(hash: StepId -> nat, s: State, e: Event)
    requires |s.workers| == 4
    ensures var t := Step(hash, s, e);
            t.dropped == s.dropped
            || exists id: nat, task :: id < |s.enqueuers| && e == EnqueuerStep(id) && t.dropped == s.dropped + [task]
                 && ((s.enqueuers[id] == CheckPause(task) && s.paused)
                     || (s.enqueuers[id] == PushBack(task) && |s.workers[hash(task.step) % 4].queue| > 2048))
  {
  }

  /** The pause flag is what it was last set to. */
  lemma PauseIsSet(hash: StepId -> nat, s: State, e: Event)
    requires |s.workers| == 4
    ensures Step(hash, s, e).paused == if e.SetPaused? then e.paused else s.paused
  {
  }

  /** A worker takes its oldest task, then executes it; with nothing to take it leaves if told to stop, else sleeps. */
  lemma WorkerTurn(hash: StepId -> nat, s: State, w: nat)
    requires |s.workers| == 4 && w < 4
    ensures var v, t := s.workers[w], Step(hash, s, WorkerStep(w));
            && |t.workers| == 4
            && (v.at.TakeNext? && v.queue != [] ==>
                  Step(hash, t, WorkerStep(w))
                  == s.(workers := s.workers[w := v.(queue := v.queue[1..], executed := v.executed + [v.queue[0]])]))
            && (v.at.TakeNext? && v.queue == [] ==>
                  t == s.(workers := s.workers[w := if v.stopFlag || s.stopGlobal
                                                    then v.(at := Exited, acceptedAtExit := |v.accepted|)
                                                    else v.(at := Asleep)]))
    ensures s.workers[w].at.NotStarted? && !s.stopGlobal ==>
              Step(hash, s, StartWorker(w)).workers == s.workers[w := s.workers[w].(at := TakeNext, stopFlag := false)]
  {
    var v, t := s.workers[w], Step(hash, s, WorkerStep(w));
    if v.at.TakeNext? && v.queue != [] {
      var done := v.(queue := v.queue[1..], executed := v.executed + [v.queue[0]]);
      assert t.workers[w := done] == s.workers[w := done];
    }
  }

  /** shutdown sets the flag of each worker and wakes it, then waits for each one that was started to leave. */
  lemma ShutdownGoesOn(hash: StepId -> nat, s: State)
    requires |s.workers| == 4
    ensures var t := Step(hash, s, ShutdownStep);
            match s.shutdown
            case SetFlag(w) =>
              if w < 4 then t == s.(workers := s.workers[w := s.workers[w].(stopFlag := true)], shutdown := WakeUp(w))
              else t == s.(shutdown := Join(0))
            case WakeUp(w) =>
              && t.shutdown == SetFlag(w + 1) && (w < 4 ==> !t.workers[w].at.Asleep?)
              && (forall v :: 0 <= v < 4 && v != w ==> t.workers[v] == s.workers[v])
            case Join(w) =>
              if w >= 4 then t == s.(shutdown := Finished)
              else if s.workers[w].at.Exited? || s.workers[w].at.NotStarted? then t == s.(shutdown := Join(w + 1))
              else t == s
            case _ => t == s
    ensures s.shutdown.NotCalled? ==> Step(hash, s, CallShutdown) == s.(stopGlobal := true, shutdown := SetFlag(0))
  {
  }
}
