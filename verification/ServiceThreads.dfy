/** Service calls between threads, sdk/fins/service/service_manager.cpp:25-119: callers, the worker and the destructor,
    interleaved at every read of the stop flag, critical section, sleep and notification. */
module ServiceThreads {
  import opened Wrappers
  import opened ServiceManager

  /** worker_loop. From ReadStop to Dozing or Popping the worker holds queue_mutex_; ReadStop and ReadQueue are the
      wait predicate, Dozing is between a false predicate and the sleep. */
  datatype WorkerAt =
    | AtLoop
    | ReadStop
    | ReadQueue
    | Dozing
    | Asleep
    | TestStop
    | TestQueue
    | Popping
    | LookingUp(call: nat)
    | Resolving(call: nat, version: nat)
    | Exited
    | TookFromEmpty

  datatype Destructor = Alive | StopStored | StopNotified | Joined

  /** A call, the version of the registry when it was made, and every resolution of its promise. */
  datatype Call = Call(request: Request, since: nat, resolutions: seq<Outcome>)

  /** A call the worker resolved: by the entry in which version of the registry, and after which reply. */
  datatype Finished = Finished(call: nat, version: nat, reply: Reply)

  /** `registry` has every version of the service map, the current one last; `owed` counts callers about to notify. */
  datatype State = State(
    registry: seq<map<Topic, Entry>>, calls: seq<Call>, queue: seq<nat>, stop: bool, worker: WorkerAt,
    destructor: Destructor, owed: nat, queued: seq<nat>, finished: seq<Finished>)

  datatype Event =
    | Register(topic: Topic, entry: Entry)
    | CallService(request: Request)
    | NotifyOne
    | WorkerStep(reply: Reply)
    | SpuriousWake
    | Destruct

  function Init(): State {
    State([map[]], [], [], false, AtLoop, Alive, 0, [], [])
  }

  predicate HoldsMutex(w: WorkerAt) {
    w.ReadStop? || w.ReadQueue? || w.Dozing? || w.TestStop? || w.TestQueue? || w.Popping?
  }

  function Woken(w: WorkerAt): WorkerAt {
    if w.Asleep? then ReadStop else w
  }

  function Step(s: State, e: Event): State {
    match e
    case Register(topic, entry) =>
      if s.registry == [] then s
      else s.(registry := s.registry + [s.registry[|s.registry| - 1][topic := entry]])
    case CallService(request) =>
      if HoldsMutex(s.worker) || s.registry == [] then s
      else if s.stop then s.(calls := s.calls + [Call(request, |s.registry| - 1, [Stopping])])
      else s.(calls := s.calls + [Call(request, |s.registry| - 1, [])], queue := s.queue + [|s.calls|],
              queued := s.queued + [|s.calls|], owed := s.owed + 1)
    case NotifyOne => if s.owed > 0 then s.(owed := s.owed - 1, worker := Woken(s.worker)) else s
    case WorkerStep(reply) => StepWorker(s, reply)
    case SpuriousWake => s.(worker := Woken(s.worker))
    case Destruct =>
      match s.destructor
      case Alive => s.(stop := true, destructor := StopStored)
      case StopStored => s.(worker := Woken(s.worker), destructor := StopNotified)
      case StopNotified => if s.worker.Exited? then s.(destructor := Joined) else s
      case Joined => s
  }

  function StepWorker(s: State, reply: Reply): State {
    match s.worker
    case AtLoop => s.(worker := if s.stop then Exited else ReadStop)
    case ReadStop => s.(worker := if s.stop then TestStop else ReadQueue)
    case ReadQueue => s.(worker := if s.queue != [] then TestStop else Dozing)
    case Dozing => s.(worker := Asleep)
    case TestStop => s.(worker := if s.stop then TestQueue else Popping)
    case TestQueue => s.(worker := if s.queue == [] then Exited else Popping)
    case Popping =>
      if s.queue == [] then s.(worker := TookFromEmpty)
      else s.(worker := LookingUp(s.queue[0]), queue := s.queue[1..])
    case LookingUp(c) => if s.registry == [] then s else s.(worker := Resolving(c, |s.registry| - 1))
    case Resolving(c, v) =>
      if c < |s.calls| && v < |s.registry| then
        var call := s.calls[c];
        var outcome := Decide(Lookup(s.registry[v], call.request.topic), call.request, reply);
        s.(worker := AtLoop, calls := s.calls[c := call.(resolutions := call.resolutions + [outcome])],
           finished := s.finished + [Finished(c, v, reply)])
      else s
    case _ => s
  }

  function Exec(s: State, events: seq<Event>): State {
    if events == [] then s else Step(Exec(s, events[..|events| - 1]), events[|events| - 1])
  }

  // ---------- the invariant ----------

  function HeldCall(w: WorkerAt): seq<nat> {
    match w
    case LookingUp(c) => [c]
    case Resolving(c, _) => [c]
    case _ => []
  }

  function Ids(finished: seq<Finished>): (ids: seq<nat>)
    ensures |ids| == |finished| && forall i :: 0 <= i < |finished| ==> ids[i] == finished[i].call
  {
    seq(|finished|, i requires 0 <= i < |finished| => finished[i].call)
  }

  /** The promise was resolved once, as the entry found for the topic between the call and now decides. */
  predicate Answered(s: State, f: Finished) {
    && f.call < |s.calls| && s.calls[f.call].since <= f.version < |s.registry|
    && var call := s.calls[f.call];
       call.resolutions == [Decide(Lookup(s.registry[f.version], call.request.topic), call.request, f.reply)]
  }

  predicate Unresolved(s: State, c: nat) {
    c < |s.calls| && s.calls[c].resolutions == []
  }

  ghost predicate CallsFit(s: State) {
    && s.registry != []
    && (forall c :: 0 <= c < |s.calls| ==>
          s.calls[c].since < |s.registry| && (c in s.queued || (s.stop && s.calls[c].resolutions == [Stopping])))
    && (forall i, j :: 0 <= i < j < |s.queued| ==> s.queued[i] < s.queued[j])
    && (forall i :: 0 <= i < |s.queued| ==> s.queued[i] < |s.calls|)
  }

  ghost predicate InQueueOrder(s: State) {
    s.queued == Ids(s.finished) + HeldCall(s.worker) + s.queue
  }

  ghost predicate AllAnswered(s: State) {
    forall k :: 0 <= k < |s.finished| ==> Answered(s, s.finished[k])
  }

  ghost predicate AllUnresolved(s: State, calls: seq<nat>) {
    forall c :: c in calls ==> Unresolved(s, c)
  }

  ghost predicate ProgressFits(s: State) {
    && InQueueOrder(s) && AllAnswered(s) && AllUnresolved(s, HeldCall(s.worker) + s.queue)
    && (s.worker.Resolving? ==>
          s.worker.version < |s.registry|
          && (s.worker.call < |s.calls| ==> s.calls[s.worker.call].since <= s.worker.version))
  }

  predicate WorkerFits(s: State) {
    && (s.worker.TestStop? ==> s.stop || s.queue != [])
    && (s.worker.TestQueue? ==> s.stop)
    && (s.worker.Popping? ==> s.queue != [])
    && (s.worker.Dozing? ==> s.queue == [])
    && (s.worker.Asleep? && s.queue != [] ==> s.owed > 0)
    && (s.worker.Exited? ==> s.stop)
    && !s.worker.TookFromEmpty?
  }

  ghost predicate Inv(s: State) {
    CallsFit(s) && ProgressFits(s) && WorkerFits(s)
  }

  lemma RegisterKeeps(s: State, topic: Topic, entry: Entry)
    requires Inv(s)
    ensures Inv(Step(s, Register(topic, entry)))
  {
  }

  lemma CallListed(s: State, request: Request)
    requires CallsFit(s)
    ensures CallsFit(Step(s, CallService(request)))
  {
    var t := Step(s, CallService(request));
    if t != s {
      assert forall c | c in s.queued :: c in t.queued;
      if !s.stop {
        assert t.queued[|s.queued|] == |s.calls|;
      }
    }
  }

  lemma CallWaits(s: State, request: Request)
    requires ProgressFits(s) && !HoldsMutex(s.worker) && !s.stop && s.registry != []
    ensures ProgressFits(Step(s, CallService(request)))
  {
    var t := Step(s, CallService(request));
    var pending := HeldCall(s.worker) + s.queue;
    assert HeldCall(t.worker) + t.queue == pending + [|s.calls|];
    assert t.queued == Ids(s.finished) + HeldCall(s.worker) + (s.queue + [|s.calls|]);
    assert HeldCall(s.worker) != [] ==> HeldCall(s.worker)[0] in pending;
  }

  lemma CallKeeps(s: State, request: Request)
    requires Inv(s)
    ensures Inv(Step(s, CallService(request)))
  {
    CallListed(s, request);
    if !HoldsMutex(s.worker) {
      if s.stop {
        assert HeldCall(s.worker) != [] ==> HeldCall(s.worker)[0] in HeldCall(s.worker) + s.queue;
      } else {
        CallWaits(s, request);
      }
    }
  }

  /** The held call is none of those before or after it in the queue. */
  lemma HeldIsDistinct(s: State, c: nat)
    requires CallsFit(s) && InQueueOrder(s) && HeldCall(s.worker) == [c]
    ensures c < |s.calls| && c !in s.queue && forall k :: 0 <= k < |s.finished| ==> s.finished[k].call != c
  {
    assert s.queued[|s.finished|] == c;
    forall k | 0 <= k < |s.finished| ensures s.finished[k].call != c {
      assert s.queued[k] == s.finished[k].call;
    }
    forall i | 0 <= i < |s.queue| ensures s.queue[i] != c {
      assert s.queued[|s.finished| + 1 + i] == s.queue[i];
    }
  }

  lemma ResolveAnswers(s: State, reply: Reply)
    requires Inv(s) && s.worker.Resolving?
    ensures ProgressFits(Step(s, WorkerStep(reply)))
  {
    var t := Step(s, WorkerStep(reply));
    var c := s.worker.call;
    HeldIsDistinct(s, c);
    assert c in HeldCall(s.worker) + s.queue;
    assert Ids(t.finished) == Ids(s.finished) + [c];
    assert t.queued == Ids(t.finished) + HeldCall(t.worker) + t.queue;
    forall k | 0 <= k < |t.finished| ensures Answered(t, t.finished[k]) {
      if k < |s.finished| {
        assert Answered(s, s.finished[k]);
      } else {
        assert Unresolved(s, c);
      }
    }
    forall d | d in t.queue ensures Unresolved(t, d) {
      assert d in HeldCall(s.worker) + s.queue;
    }
    assert HeldCall(t.worker) + t.queue == t.queue;
  }

  lemma ResolveKeeps(s: State, reply: Reply)
    requires Inv(s) && s.worker.Resolving?
    ensures Inv(Step(s, WorkerStep(reply)))
  {
    ResolveAnswers(s, reply);
    HeldIsDistinct(s, s.worker.call);
    assert s.queued[|s.finished|] == s.worker.call;
  }

  lemma HeadOff(ids: seq<nat>, queue: seq<nat>)
    requires queue != []
    ensures ids + [] + queue == ids + [queue[0]] + queue[1..]
    ensures [] + queue == [queue[0]] + queue[1..]
  {
  }

  lemma PopKeeps(s: State, reply: Reply)
    requires Inv(s) && s.worker.Popping?
    ensures Inv(Step(s, WorkerStep(reply)))
  {
    HeadOff(Ids(s.finished), s.queue);
  }

  /** Steps after which every call is where it was. */
  lemma QuietStepKeeps(s: State, e: Event)
    requires Inv(s) && (e.NotifyOne? || e.SpuriousWake? || e.Destruct? || e.WorkerStep?)
    requires e.WorkerStep? ==> !s.worker.Resolving? && !s.worker.Popping? && !s.worker.LookingUp?
    ensures Inv(Step(s, e))
  {
    QuietStepFrame(s, e);
    QuietStepProgress(s, Step(s, e));
    QuietStepWorker(s, e);
  }

  lemma QuietStepFrame(s: State, e: Event)
    requires e.NotifyOne? || e.SpuriousWake? || e.Destruct? || e.WorkerStep?
    requires e.WorkerStep? ==> !s.worker.Resolving? && !s.worker.Popping? && !s.worker.LookingUp?
    ensures var t := Step(s, e);
            && (s.stop ==> t.stop)
            && t == s.(worker := t.worker, stop := t.stop, destructor := t.destructor, owed := t.owed)
            && HeldCall(t.worker) == HeldCall(s.worker) && (t.worker.Resolving? ==> t.worker == s.worker)
  {
  }

  lemma QuietStepWorker(s: State, e: Event)
    requires WorkerFits(s) && (e.NotifyOne? || e.SpuriousWake? || e.Destruct? || e.WorkerStep?)
    requires e.WorkerStep? ==> !s.worker.Resolving? && !s.worker.Popping? && !s.worker.LookingUp?
    ensures WorkerFits(Step(s, e))
  {
  }

  lemma QuietStepProgress(s: State, t: State)
    requires CallsFit(s) && ProgressFits(s) && (s.stop ==> t.stop)
    requires t == s.(worker := t.worker, stop := t.stop, destructor := t.destructor, owed := t.owed)
    requires HeldCall(t.worker) == HeldCall(s.worker) && (t.worker.Resolving? ==> t.worker == s.worker)
    ensures CallsFit(t) && ProgressFits(t)
  {
  }

  lemma LookUpKeeps(s: State, reply: Reply)
    requires Inv(s) && s.worker.LookingUp?
    ensures Inv(Step(s, WorkerStep(reply)))
  {
  }

  lemma StepKeeps(s: State, e: Event)
    requires Inv(s)
    ensures Inv(Step(s, e))
  {
    match e
    case Register(topic, entry) => RegisterKeeps(s, topic, entry);
    case CallService(request) => CallKeeps(s, request);
    case WorkerStep(reply) =>
      if s.worker.Resolving? {
        ResolveKeeps(s, reply);
      } else if s.worker.Popping? {
        PopKeeps(s, reply);
      } else if s.worker.LookingUp? {
        LookUpKeeps(s, reply);
      } else {
        QuietStepKeeps(s, e);
      }
    case _ => QuietStepKeeps(s, e);
  }

  lemma {:induction false} RunKeeps(events: seq<Event>)
    ensures Inv(Exec(Init(), events))
  {
    if events != [] {
      RunKeeps(events[..|events| - 1]);
      StepKeeps(Exec(Init(), events[..|events| - 1]), events[|events| - 1]);
    }
  }

  // ---------- what a caller can rely on ----------

  /** In every reachable state the promise of every call was resolved at most once, and it is exactly one of: resolved
      at the call because the manager is stopping, resolved by the worker, held by the worker, or queued. */
  lemma ExactlyOnce(events: seq<Event>, c: nat)
    requires c < |Exec(Init(), events).calls|
    ensures var s := Exec(Init(), events);
            var refused := c !in s.queued;
            var finished := c in Ids(s.finished);
            var held := c in HeldCall(s.worker);
            var waiting := c in s.queue;
            && |s.calls[c].resolutions| == (if refused || finished then 1 else 0)
            && (refused ==> s.stop && s.calls[c].resolutions == [Stopping])
            && (if refused then 1 else 0) + (if finished then 1 else 0) + (if held then 1 else 0)
               + (if waiting then 1 else 0) == 1
  {
    RunKeeps(events);
    var s := Exec(Init(), events);
    Apart(Ids(s.finished), HeldCall(s.worker), s.queue, c);
    if c in Ids(s.finished) {
      var k :| 0 <= k < |s.finished| && Ids(s.finished)[k] == c;
      assert Answered(s, s.finished[k]);
    } else if c in s.queued {
      assert c in HeldCall(s.worker) + s.queue;
      assert Unresolved(s, c);
    }
  }

  /** An increasing sequence in three parts has each element in one of them. */
  lemma Apart(a: seq<nat>, b: seq<nat>, d: seq<nat>, c: nat)
    requires forall i, j :: 0 <= i < j < |a + b + d| ==> (a + b + d)[i] < (a + b + d)[j]
    ensures c in a + b + d <==> c in a || c in b || c in d
    ensures !(c in a && c in b) && !(c in a && c in d) && !(c in b && c in d)
  {
    var all := a + b + d;
    forall i | 0 <= i < |a| ensures all[i] == a[i] {}
    forall i | 0 <= i < |b| ensures all[|a| + i] == b[i] {}
    forall i | 0 <= i < |d| ensures all[|a| + |b| + i] == d[i] {}
  }

  /** In every reachable state the worker has resolved a prefix of the queued calls, in queue order, each by what the
      entry registered for its topic at some moment after the call decides; and it never took from an empty queue. */
  lemma ResolvedInOrder(events: seq<Event>)
    ensures var s := Exec(Init(), events);
            && Ids(s.finished) <= s.queued
            && (forall k :: 0 <= k < |s.finished| ==> Answered(s, s.finished[k]) && OutcomeIsRight(s, s.finished[k]))
            && !s.worker.TookFromEmpty?
  {
    RunKeeps(events);
    var s := Exec(Init(), events);
    forall k | 0 <= k < |s.finished| ensures Answered(s, s.finished[k]) && OutcomeIsRight(s, s.finished[k]) {
      var f := s.finished[k];
      assert Answered(s, f);
      DecideFits(s.registry[f.version], s.calls[f.call].request, f.reply);
    }
  }

  /** Not found, mismatch, value or exception, as the entry for the topic and its callback's reply have it. */
  ghost predicate OutcomeIsRight(s: State, f: Finished) {
    && f.call < |s.calls| && f.version < |s.registry| && |s.calls[f.call].resolutions| == 1
    && OutcomeFits(s.registry[f.version], s.calls[f.call].request, f.reply, s.calls[f.call].resolutions[0])
  }

  /** In every reachable state a worker asleep while calls wait is owed a notify by one of their callers. */
  lemma NoCallSleeps(events: seq<Event>)
    ensures var s := Exec(Init(), events);
            s.worker.Asleep? && s.queue != [] ==> s.owed > 0
  {
    RunKeeps(events);
  }

  // ---------- every call is answered ----------

  /** How many worker steps and notifies it takes until the worker has resolved its current or next call. */
  function TurnRank(w: WorkerAt): nat {
    match w
    case Resolving(_, _) => 1
    case LookingUp(_) => 2
    case Popping => 3
    case TestStop => 4
    case ReadQueue => 5
    case ReadStop => 6
    case _ => 7
  }

  /** The calls to be resolved next, in order: the one the worker holds and those queued. */
  function Waiting(s: State): seq<nat> {
    HeldCall(s.worker) + s.queue
  }

  function Distance(s: State, k: nat): nat {
    TurnRank(s.worker) + 7 * k
  }

  /** A step of the worker, or a notify it sleeps for. */
  predicate IsMove(s: State, e: Event) {
    if s.worker.Asleep? then e.NotifyOne? else e.WorkerStep?
  }

  function Moves(s: State, events: seq<Event>): nat {
    if events == [] then 0
    else
      var front, last := events[..|events| - 1], events[|events| - 1];
      Moves(s, front) + if IsMove(Exec(s, front), last) then 1 else 0
  }

  /** Call `c` is resolved, or waits as the `k`-th, `n` moves nearer to its resolution than `d`. */
  predicate ResolvedOrNearer(s: State, c: nat, k: nat, n: nat, d: nat) {
    c in Ids(s.finished) || (k < |Waiting(s)| && Waiting(s)[k] == c && n + Distance(s, k) <= d)
  }

  /** While the manager is not stopped, a move brings every waiting call nearer, and nothing brings it further away. */
  lemma CallsGetNearer(s: State, e: Event, k: nat)
    requires Inv(s) && !s.stop && !e.Destruct? && k < |Waiting(s)|
    ensures var n := if IsMove(s, e) then 1 else 0;
            var k' := if s.worker.Resolving? && e.WorkerStep? && k > 0 then k - 1 else k;
            ResolvedOrNearer(Step(s, e), Waiting(s)[k], k', n, Distance(s, k))
  {
    var t := Step(s, e);
    if s.worker.Resolving? && e.WorkerStep? {
      assert s.worker.call in Waiting(s);
      assert Unresolved(s, s.worker.call);
      assert Ids(t.finished)[|s.finished|] == s.worker.call;
    } else if s.worker.Popping? && e.WorkerStep? {
      assert Waiting(t) == Waiting(s);
    } else {
      assert Waiting(s) <= Waiting(t);
    }
  }

  lemma FinishedStays(s: State, e: Event, c: nat)
    requires c in Ids(s.finished)
    ensures c in Ids(Step(s, e).finished)
  {
    assert Ids(s.finished) <= Ids(Step(s, e).finished);
  }

  lemma NearerStep(s: State, e: Event, c: nat, k: nat, n: nat, d: nat) returns (k': nat)
    requires Inv(s) && !s.stop && !e.Destruct? && ResolvedOrNearer(s, c, k, n, d)
    ensures ResolvedOrNearer(Step(s, e), c, k', n + if IsMove(s, e) then 1 else 0, d)
    ensures Inv(Step(s, e)) && !Step(s, e).stop
  {
    StepKeeps(s, e);
    k' := k;
    if c in Ids(s.finished) {
      FinishedStays(s, e, c);
    } else {
      CallsGetNearer(s, e, k);
      k' := if s.worker.Resolving? && e.WorkerStep? && k > 0 then k - 1 else k;
    }
  }

  /** In any run without a stop, a waiting call is resolved within this many moves. */
  lemma {:induction false} AnsweredWithin(s: State, events: seq<Event>, k: nat) returns (k': nat)
    requires Inv(s) && !s.stop && k < |Waiting(s)| && Destruct !in events
    ensures var t := Exec(s, events);
            && Inv(t) && !t.stop
            && ResolvedOrNearer(t, Waiting(s)[k], k', Moves(s, events), Distance(s, k))
            && (Moves(s, events) >= Distance(s, k) ==> Waiting(s)[k] in Ids(t.finished))
  {
    k' := k;
    if events != [] {
      var front, last := events[..|events| - 1], events[|events| - 1];
      var j := AnsweredWithin(s, front, k);
      k' := NearerStep(Exec(s, front), last, Waiting(s)[k], j, Moves(s, front), Distance(s, k));
    }
  }

  /** And until then there is always a move to make. */
  lemma CallsAreNotStuck(s: State)
    requires Inv(s) && !s.stop && Waiting(s) != []
    ensures exists e :: IsMove(s, e) && Step(s, e).worker != s.worker
  {
    var reply := Throws("");
    if s.worker.Asleep? {
      assert Waiting(s) == s.queue;
      assert IsMove(s, NotifyOne) && Step(s, NotifyOne).worker != s.worker;
    } else {
      if s.worker.Resolving? {
        assert s.worker.call in Waiting(s);
        assert Unresolved(s, s.worker.call);
      }
      assert IsMove(s, WorkerStep(reply)) && Step(s, WorkerStep(reply)).worker != s.worker;
    }
  }

  // ---------- stopping ----------

  /** The worker has read the stop flag as unset and will go to sleep without reading it again. */
  predicate PastTheFlag(s: State) {
    s.worker.Dozing? || (s.worker.ReadQueue? && s.queue == [])
  }

  predicate SeesStop(s: State) {
    s.stop && (s.destructor.StopNotified? || s.destructor.Joined?) && !PastTheFlag(s) && !s.worker.Asleep?
  }

  lemma SeesStopStays(s: State, e: Event)
    requires SeesStop(s)
    ensures SeesStop(Step(s, e))
  {
  }

  /** The worker's steps to its exit once the flag is set and it does not sleep. */
  function StepsToExit(w: WorkerAt): nat {
    match w
    case AtLoop => 1
    case Resolving(_, _) => 2
    case LookingUp(_) => 3
    case Popping => 4
    case TestQueue => 5
    case TestStop => 6
    case ReadStop => 7
    case ReadQueue => 7
    case _ => 0
  }

  function WorkerSteps(events: seq<Event>): nat {
    if events == [] then 0
    else WorkerSteps(events[..|events| - 1]) + if events[|events| - 1].WorkerStep? then 1 else 0
  }

  lemma SeesStopStep(s: State, e: Event)
    requires Inv(s) && SeesStop(s)
    ensures var left := StepsToExit(Step(s, e).worker);
            if e.WorkerStep? && !s.worker.Exited? then left < StepsToExit(s.worker) else left == StepsToExit(s.worker)
  {
    if s.worker.Resolving? {
      assert s.worker.call in HeldCall(s.worker) + s.queue;
      assert Unresolved(s, s.worker.call);
    }
  }

  /** The destructor stores the flag and notifies without the mutex the worker reads it under. If the worker is not
      between its read and its sleep when the notify comes, it never sleeps again, and has left after at most seven of
      its own steps. */
  lemma {:induction false} StopIsSeen(s: State, events: seq<Event>)
    requires Inv(s) && s.destructor.StopStored? && s.stop && !PastTheFlag(s)
    ensures var t := Exec(Step(s, Destruct), events);
            && Inv(t) && SeesStop(t) && (WorkerSteps(events) >= 7 ==> t.worker.Exited?)
            && (t.worker.Exited? || StepsToExit(t.worker) + WorkerSteps(events) <= 7)
  {
    var first := Step(s, Destruct);
    StepKeeps(s, Destruct);
    if events != [] {
      var front, last := events[..|events| - 1], events[|events| - 1];
      StopIsSeen(s, front);
      StepKeeps(Exec(first, front), last);
      SeesStopStays(Exec(first, front), last);
      SeesStopStep(Exec(first, front), last);
    } else {
      ExitTakesSteps(first);
    }
  }

  lemma ExitTakesSteps(s: State)
    requires Inv(s) && SeesStop(s)
    ensures s.worker.Exited? || 0 < StepsToExit(s.worker) <= 7
  {
  }

  /** If it is, the notify is lost: two worker steps later at most it sleeps, on an empty queue and a set flag, and
      only a caller's late notify or a spurious wake-up gets it out; the join in the destructor waits for that. */
  lemma StopIsMissed(s: State, reply: Reply)
    requires Inv(s) && s.destructor.StopStored? && s.stop && PastTheFlag(s)
    ensures var t := Exec(Step(s, Destruct), [WorkerStep(reply), WorkerStep(reply)]);
            && t.stop && t.destructor.StopNotified? && t.worker.Asleep?
            && forall e: Event :: !e.SpuriousWake? && !(e.NotifyOne? && t.owed > 0) ==>
                 var u := Step(t, e);
                 u.worker.Asleep? && u.destructor.StopNotified? && u.owed == t.owed
  {
    var u := Step(s, Destruct);
    var steps := [WorkerStep(reply), WorkerStep(reply)];
    assert steps[..1] == [WorkerStep(reply)] && steps[..1][..0] == [];
    assert Exec(u, steps[..1]) == Step(u, WorkerStep(reply));
    assert Exec(u, steps) == Step(Exec(u, steps[..1]), WorkerStep(reply));
  }

  lemma ExecAppend(events: seq<Event>, e: Event)
    ensures Exec(Init(), events + [e]) == Step(Exec(Init(), events), e)
  {
    assert (events + [e])[..|events + [e]| - 1] == events;
  }

  /** A run on which the stop is missed: the worker reads the flag, the destructor stores and notifies, the worker goes
      to sleep, owed no notify, and the join waits for it. */
  lemma MissedStopRun(reply: Reply) returns (events: seq<Event>, late: State)
    ensures exists before: seq<Event> :: late == Exec(Init(), before)
    ensures Inv(late) && late.destructor.StopStored? && late.stop && PastTheFlag(late)
    ensures var t := Exec(Init(), events);
            t.stop && t.destructor.StopNotified? && t.worker.Asleep? && t.owed == 0 && t.queue == []
  {
    events := [];
    ExecAppend(events, WorkerStep(reply));
    events := events + [WorkerStep(reply)];
    ExecAppend(events, WorkerStep(reply));
    events := events + [WorkerStep(reply)];
    ExecAppend(events, Destruct);
    events := events + [Destruct];
    late := Exec(Init(), events);
    RunKeeps(events);
    ExecAppend(events, Destruct);
    events := events + [Destruct];
    ExecAppend(events, WorkerStep(reply));
    events := events + [WorkerStep(reply)];
    ExecAppend(events, WorkerStep(reply));
    events := events + [WorkerStep(reply)];
  }

  // ---------- what the calls do ----------

  /** A registration makes a new version of the registry with that entry for that topic. */
  lemma RegisterTakesEffect(s: State, topic: Topic, entry: Entry)
    requires s.registry != []
    ensures var t := Step(s, Register(topic, entry));
            && |t.registry| == |s.registry| + 1 && t.registry[..|s.registry|] == s.registry
            && (forall other :: Lookup(t.registry[|s.registry|], other)
                                == if other == topic then Some(entry) else Lookup(s.registry[|s.registry| - 1], other))
            && t.calls == s.calls && t.queue == s.queue && t.worker == s.worker
  {
  }

  /** A call waits for the mutex; then it is refused by a stopping manager, else queued last with a notify to come. */
  lemma CallTakesEffect(s: State, request: Request)
    requires s.registry != []
    ensures var t := Step(s, CallService(request));
            var c := Call(request, |s.registry| - 1, []);
            if HoldsMutex(s.worker) then t == s
            else if s.stop then t == s.(calls := s.calls + [c.(resolutions := [Stopping])])
            else t == s.(calls := s.calls + [c], queue := s.queue + [|s.calls|], queued := s.queued + [|s.calls|],
                         owed := s.owed + 1)
  {
  }

  /** The worker looks the topic up in the newest version, and a notify reaches it if it sleeps. */
  lemma WorkerTakesEffect(s: State, reply: Reply, c: nat)
    ensures s.worker == LookingUp(c) && s.registry != [] ==>
              Step(s, WorkerStep(reply)) == s.(worker := Resolving(c, |s.registry| - 1))
    ensures s.owed > 0 ==> !Step(s, NotifyOne).worker.Asleep? && Step(s, NotifyOne).owed == s.owed - 1
    ensures !Step(s, SpuriousWake).worker.Asleep?
    ensures s.destructor.Alive? ==> Step(s, Destruct) == s.(stop := true, destructor := StopStored)
    ensures s.destructor.StopStored? ==>
              !Step(s, Destruct).worker.Asleep? && Step(s, Destruct).destructor.StopNotified?
    ensures Step(s, Destruct).destructor.Joined?
            <==> s.destructor.Joined? || (s.destructor.StopNotified? && s.worker.Exited?)
  {
  }
}
