/** The worker of the action manager, asleep and awake: worker_loop of sdk/fins/action/action_manager.cpp:213-229
    against the pushes of create_action_session (183-187) and the destructor (22-28), interleaved at every read of
    the stop flag, critical section, sleep and notification. What a goal does is in ActionThreads. */
module ActionWorker {
  import opened Sequences

  /** The worker waits for queue_mutex_ in Locking and holds it from ReadQueue to Dozing and from TestStop to Popping.
      ReadQueue and ReadStop are the wait predicate, Dozing is between a false predicate and the sleep. */
  datatype WorkerAt =
    | AtLoop
    | Locking
    | ReadQueue
    | ReadStop
    | Dozing
    | Asleep
    | TestStop
    | TestQueue
    | Popping
    | Working
    | Exited
    | TookFromEmpty

  datatype Destructor = Alive | StopStored | StopNotified | Joined

  /** `pushed` and `taken` are all the goals that were queued and taken out. */
  datatype State<G> = State(
    queue: seq<G>, stop: bool, worker: WorkerAt, destructor: Destructor, pushed: seq<G>, taken: seq<G>)

  /** A goal is pushed and the worker notified in one critical section. */
  datatype Event<G> = PushGoal(goal: G) | WorkerStep | SpuriousWake | Destruct

  function Init<G>(): State<G> {
    State([], false, AtLoop, Alive, [], [])
  }

  predicate HoldsMutex(w: WorkerAt) {
    w.ReadQueue? || w.ReadStop? || w.Dozing? || w.TestStop? || w.TestQueue? || w.Popping?
  }

  function Woken(w: WorkerAt): WorkerAt {
    if w.Asleep? then Locking else w
  }

  function Step<G>(s: State<G>, e: Event<G>): State<G> {
    match e
    case PushGoal(goal) =>
      if HoldsMutex(s.worker) then s
      else s.(queue := s.queue + [goal], pushed := s.pushed + [goal], worker := Woken(s.worker))
    case WorkerStep => StepWorker(s)
    case SpuriousWake => s.(worker := Woken(s.worker))
    case Destruct =>
      match s.destructor
      case Alive => s.(stop := true, destructor := StopStored)
      case StopStored => s.(worker := Woken(s.worker), destructor := StopNotified)
      case StopNotified => if s.worker.Exited? then s.(destructor := Joined) else s
      case Joined => s
  }

  function StepWorker<G>(s: State<G>): State<G> {
    match s.worker
    case AtLoop => s.(worker := if s.stop then Exited else Locking)
    case Locking => s.(worker := ReadQueue)
    case ReadQueue => s.(worker := if s.queue != [] then TestStop else ReadStop)
    case ReadStop => s.(worker := if s.stop then TestStop else Dozing)
    case Dozing => s.(worker := Asleep)
    case TestStop => s.(worker := if s.stop then Exited else TestQueue)
    case TestQueue => s.(worker := if s.queue == [] then AtLoop else Popping)
    case Popping =>
      if s.queue == [] then s.(worker := TookFromEmpty)
      else s.(worker := Working, queue := s.queue[1..], taken := s.taken + [s.queue[0]])
    case Working => s.(worker := AtLoop)
    case _ => s
  }

  function Exec<G>(s: State<G>, events: seq<Event<G>>): State<G> {
    if events == [] then s else Step(Exec(s, events[..|events| - 1]), events[|events| - 1])
  }

  // ---------- goals ----------

  ghost predicate Inv<G>(s: State<G>) {
    && s.pushed == s.taken + s.queue
    && (s.worker.ReadStop? || s.worker.Dozing? || s.worker.Asleep? ==> s.queue == [])
    && (s.worker.TestQueue? || s.worker.Popping? ==> s.queue != [])
    && (s.worker.TestStop? && s.queue == [] ==> s.stop)
    && (s.worker.Exited? || !s.destructor.Alive? ==> s.stop)
    && !s.worker.TookFromEmpty?
  }

  lemma StepKeeps<G>(s: State<G>, e: Event<G>)
    requires Inv(s)
    ensures Inv(Step(s, e))
  {
    match e
    case PushGoal(goal) => Associates(s.taken, s.queue, [goal]);
    case WorkerStep =>
      if s.worker.Popping? {
        assert s.queue == [s.queue[0]] + s.queue[1..];
        Associates(s.taken, [s.queue[0]], s.queue[1..]);
      }
    case _ =>
  }

  /** In every interleaving the worker takes the goals in the order they were pushed, never from an empty queue, and it
      sleeps only while no goal is queued. */
  lemma {:induction false} NoGoalSleeps<G>(events: seq<Event<G>>)
    ensures var s := Exec(Init(), events);
            Inv(s) && s.taken <= s.pushed && (s.worker.Asleep? ==> s.queue == [])
  {
    if events != [] {
      NoGoalSleeps(events[..|events| - 1]);
      StepKeeps(Exec(Init(), events[..|events| - 1]), events[|events| - 1]);
    }
  }

  // ---------- stopping ----------

  predicate SeesStop<G>(s: State<G>) {
    s.stop && (s.destructor.StopNotified? || s.destructor.Joined?) && !s.worker.Dozing? && !s.worker.Asleep?
  }

  /** The worker's steps to its exit once the flag is set and it does not sleep. */
  function StepsToExit(w: WorkerAt): nat {
    match w
    case Exited => 0
    case AtLoop => 1
    case TestStop => 1
    case Working => 2
    case ReadStop => 2
    case Popping => 3
    case ReadQueue => 3
    case TestQueue => 4
    case Locking => 4
    case _ => 0
  }

  function WorkerSteps<G>(events: seq<Event<G>>): nat {
    if events == [] then 0
    else WorkerSteps(events[..|events| - 1]) + if events[|events| - 1].WorkerStep? then 1 else 0
  }

  lemma SeesStopStep<G>(s: State<G>, e: Event<G>)
    requires Inv(s) && SeesStop(s)
    ensures SeesStop(Step(s, e))
    ensures var left := StepsToExit(Step(s, e).worker);
            if e.WorkerStep? && !s.worker.Exited? then left < StepsToExit(s.worker) else left == StepsToExit(s.worker)
  {
  }

  /** The destructor stores the flag and notifies without the mutex. If the worker is not between its read of the flag
      and its sleep when the notify comes, it has left after at most four of its own steps, whatever is still queued. */
  lemma {:induction false} StopIsSeen<G>(s: State<G>, events: seq<Event<G>>)
    requires Inv(s) && s.destructor.StopStored? && !s.worker.Dozing?
    ensures var t := Exec(Step(s, Destruct), events);
            && Inv(t) && SeesStop(t) && (WorkerSteps(events) >= 4 ==> t.worker.Exited?)
            && (t.worker.Exited? || StepsToExit(t.worker) + WorkerSteps(events) <= 4)
  {
    var first := Step(s, Destruct);
    StepKeeps(s, Destruct);
    if events != [] {
      var front, last := events[..|events| - 1], events[|events| - 1];
      StopIsSeen(s, front);
      StepKeeps(Exec(first, front), last);
      SeesStopStep(Exec(first, front), last);
    }
  }

  ghost predicate NothingWakes<G>(events: seq<Event<G>>) {
    forall e :: e in events ==> !e.PushGoal? && !e.SpuriousWake?
  }

  /** If it is, the notify is lost: the worker goes to sleep, and without a later push or a spurious wake-up it sleeps
      for good, the flag set, while the destructor waits to join it. */
  lemma {:induction false} StopIsMissed<G>(s: State<G>, events: seq<Event<G>>)
    requires Inv(s) && s.destructor.StopStored? && s.worker.Dozing? && NothingWakes(events)
    ensures var t := Exec(Step(s, Destruct), events);
            && t.stop && t.destructor.StopNotified? && t.queue == []
            && t.worker == if WorkerSteps(events) == 0 then Dozing else Asleep
  {
    if events != [] {
      StopIsMissed(s, events[..|events| - 1]);
    }
  }

  lemma ExecAppend<G>(events: seq<Event<G>>, e: Event<G>)
    ensures Exec(Init(), events + [e]) == Step(Exec(Init(), events), e)
  {
    assert (events + [e])[..|events + [e]| - 1] == events;
  }

  /** A run to that state: the worker finds no goal and reads the flag, and only then the destructor stores it. */
  lemma MissedStopRun<G>() returns (events: seq<Event<G>>)
    ensures var s := Exec(Init(), events); Inv(s) && s.destructor.StopStored? && s.worker.Dozing?
  {
    events := [];
    ExecAppend(events, WorkerStep);
    events := events + [WorkerStep];
    ExecAppend(events, WorkerStep);
    events := events + [WorkerStep];
    ExecAppend(events, WorkerStep);
    events := events + [WorkerStep];
    ExecAppend(events, WorkerStep);
    events := events + [WorkerStep];
    ExecAppend(events, Destruct);
    events := events + [Destruct];
  }

  // ---------- a goal gets through ----------

  /** `n` steps of the worker. */
  function Turns<G>(s: State<G>, n: nat): State<G>
    decreases n
  {
    if n == 0 then s else Turns(Step(s, WorkerStep), n - 1)
  }

  /** A goal pushed to a sleeping worker is taken in the worker's next five steps. */
  lemma GoalIsTaken<G>(s: State<G>, goal: G)
    requires Inv(s) && s.worker.Asleep? && !s.stop
    ensures Turns(Step(s, PushGoal(goal)), 5)
            == s.(worker := Working, pushed := s.pushed + [goal], taken := s.taken + [goal])
  {
    var s1 := s.(worker := Locking, queue := [goal], pushed := s.pushed + [goal]);
    assert Step(s, PushGoal(goal)) == s1;
    assert Turns(s1, 5) == Turns(s1.(worker := ReadQueue), 4);
    assert Turns(s1.(worker := ReadQueue), 4) == Turns(s1.(worker := TestStop), 3);
    assert Turns(s1.(worker := TestStop), 3) == Turns(s1.(worker := TestQueue), 2);
    assert Turns(s1.(worker := TestQueue), 2) == Turns(s1.(worker := Popping), 1);
  }

  /** A push waits for the mutex and then queues its goal last; the destructor stores the flag, then notifies, then
      waits for the worker to leave. */
  lemma CallsTakeEffect<G>(s: State<G>, goal: G)
    ensures var t := Step(s, PushGoal(goal));
            if HoldsMutex(s.worker) then t == s
            else t.queue == s.queue + [goal] && !t.worker.Asleep? && (!s.worker.Asleep? ==> t.worker == s.worker)
    ensures var t := Step(s, Destruct);
            && t.queue == s.queue && (s.destructor.Alive? ==> t.stop && t.destructor.StopStored?)
            && (s.destructor.StopStored? ==> t.destructor.StopNotified? && !t.worker.Asleep?)
            && (t.destructor.Joined? <==> s.destructor.Joined? || (s.destructor.StopNotified? && s.worker.Exited?))
    ensures !Step(s, SpuriousWake).worker.Asleep?
  {
  }
}
