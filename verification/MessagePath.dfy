/** The whole path of a message: publish pushes it into drop-oldest pipes, each input port's listener takes it out
    and either runs on_input itself or, once the step's force_pool_ latch has fired, enqueues it for the worker the
    step is bound to (sdk/fins/step.hpp:191-206 and 253-356). Any number of pipes, listeners and steps, interleaved
    in any way. The pipe and the pool come from their own modules. */
module MessagePath {
  import opened MessageLine
  import Pipe
  import ThreadManager

  type StepId = ThreadManager.StepId

  /** input_listener_loop: at the loop test, before pipe `next` of the pass, or with a message in hand. */
  datatype ListenerAt =
    | Gone
    | LoopTest
    | Visit(next: nat)
    | LoadLatch(next: nat, msg: Message)
    | CallOnInput(next: nat, msg: Message)
    | CallEnqueue(next: nat, msg: Message)

  datatype Worker = Worker(queue: seq<Message>, inFlight: seq<Message>)

  /** What does not change: the step and the pipes of every listener, and the listener of every pipe. */
  datatype Wiring = Wiring(stepOf: seq<StepId>, pipesOf: seq<seq<nat>>, listenerOf: seq<nat>)

  datatype State = State(
    pushes: seq<nat>, rings: seq<seq<Message>>, started: seq<bool>,
    listeners: seq<ListenerAt>, latched: set<StepId>, workers: seq<Worker>,
    handled: seq<seq<Message>>, lost: set<Message>)

  /** `refuse` stands for the stop and pause checks of enqueue, `shutdown` for shutdown_requested_, and Latch for
      the occupancy test finding the threshold exceeded. */
  datatype Event =
    | Push(pipe: nat)
    | StopPipe(pipe: nat)
    | StartListener(listener: nat)
    | ListenerStep(listener: nat, shutdown: bool, refuse: bool)
    | Latch(listener: nat)
    | WorkerTake(worker: nat)
    | WorkerRun(worker: nat)

  /** Each pipe feeds one input port, so one listener. */
  ghost predicate WellWired(w: Wiring) {
    && |w.stepOf| == |w.pipesOf|
    && (forall l, i :: 0 <= l < |w.pipesOf| && 0 <= i < |w.pipesOf[l]| ==>
          w.pipesOf[l][i] < |w.listenerOf| && w.listenerOf[w.pipesOf[l][i]] == l)
    && (forall p :: 0 <= p < |w.listenerOf| ==> w.listenerOf[p] < |w.stepOf|)
  }

  function Init(w: Wiring): State {
    var pipes := |w.listenerOf|;
    State(seq(pipes, _ => 0), seq(pipes, _ => []), seq(pipes, _ => true),
          seq(|w.stepOf|, _ => Gone), {}, seq(ThreadManager.K_THREAD_POOL_SIZE, _ => Worker([], [])),
          seq(pipes, _ => []), {})
  }

  ghost predicate Shape(w: Wiring, s: State) {
    && WellWired(w)
    && |s.pushes| == |s.rings| == |s.started| == |s.handled| == |w.listenerOf|
    && |s.listeners| == |w.stepOf|
    && |s.workers| == ThreadManager.K_THREAD_POOL_SIZE
    && (forall l :: 0 <= l < |s.listeners| && Holding(s.listeners[l]) != [] ==>
          var p := s.listeners[l].msg.pipe; p < |w.listenerOf| && w.listenerOf[p] == l)
    && (forall v, k :: 0 <= v < |s.workers| && 0 <= k < |s.workers[v].queue| ==>
          s.workers[v].queue[k].pipe < |w.listenerOf|)
    && (forall v :: 0 <= v < |s.workers| && s.workers[v].inFlight != [] ==>
          |s.workers[v].inFlight| == 1 && s.workers[v].inFlight[0].pipe < |w.listenerOf|)
    && (forall p, k :: 0 <= p < |s.rings| && 0 <= k < |s.rings[p]| ==> s.rings[p][k].pipe == p)
  }

  /** The message a listener has in hand. */
  function Holding(at: ListenerAt): seq<Message> {
    match at
    case LoadLatch(_, msg) => [msg]
    case CallOnInput(_, msg) => [msg]
    case CallEnqueue(_, msg) => [msg]
    case _ => []
  }

  function Home(w: Wiring, hash: StepId -> nat, pipe: nat): (v: nat)
    requires WellWired(w) && pipe < |w.listenerOf|
    ensures v < ThreadManager.K_THREAD_POOL_SIZE
  {
    ThreadManager.AffinityIndex(hash, w.stepOf[w.listenerOf[pipe]])
  }

  function Step(w: Wiring, hash: StepId -> nat, s: State, e: Event): State
    requires Shape(w, s)
  {
    match e
    case Push(p) => if p < |s.pushes| then StepPush(s, p) else s
    case StopPipe(p) => if p < |s.started| then s.(started := s.started[p := false]) else s
    case StartListener(l) =>
      if l < |s.listeners| && s.listeners[l].Gone? then s.(listeners := s.listeners[l := LoopTest]) else s
    case ListenerStep(l, shutdown, refuse) =>
      if l < |s.listeners| then StepListener(w, hash, s, l, shutdown, refuse) else s
    case Latch(l) =>
      if l < |s.listeners| && s.listeners[l].LoopTest? then s.(latched := s.latched + {w.stepOf[l]}) else s
    case WorkerTake(v) =>
      if v < |s.workers| && s.workers[v].inFlight == [] && s.workers[v].queue != []
      then s.(workers := s.workers[v := Worker(s.workers[v].queue[1..], [s.workers[v].queue[0]])])
      else s
    case WorkerRun(v) =>
      if v < |s.workers| && s.workers[v].inFlight != []
      then Handled(s, s.workers[v].inFlight[0]).(workers := s.workers[v := s.workers[v].(inFlight := [])])
      else s
  }

  /** Pipe::push: refused by a stopped pipe; a full ring loses its oldest message. */
  function StepPush(s: State, p: nat): State
    requires p < |s.pushes| && |s.rings| == |s.started| == |s.pushes|
  {
    var msg := Message(p, s.pushes[p]);
    var s1 := s.(pushes := s.pushes[p := s.pushes[p] + 1]);
    if !s.started[p] then s1.(lost := s.lost + {msg})
    else
      s1.(rings := s.rings[p := Pipe.DropOldest(s.rings[p], msg)],
          lost := if |s.rings[p]| < Pipe.PIPE_CAPACITY then s.lost else s.lost + {s.rings[p][0]})
  }

  function Handled(s: State, msg: Message): State {
    if msg.pipe < |s.handled| then s.(handled := s.handled[msg.pipe := s.handled[msg.pipe] + [msg]]) else s
  }

  function StepListener(w: Wiring, hash: StepId -> nat, s: State, l: nat, shutdown: bool, refuse: bool): State
    requires Shape(w, s) && l < |s.listeners|
  {
    match s.listeners[l]
    case Gone => s
    case LoopTest => s.(listeners := s.listeners[l := if shutdown then Gone else Visit(0)])
    case Visit(i) =>
      if i >= |w.pipesOf[l]| then s.(listeners := s.listeners[l := LoopTest])
      else
        var p := w.pipesOf[l][i];
        if s.rings[p] != [] then
          s.(rings := s.rings[p := s.rings[p][1..]], listeners := s.listeners[l := LoadLatch(i + 1, s.rings[p][0])])
        else if !s.started[p] then s.(listeners := s.listeners[l := Visit(i + 1)])
        else s
    case LoadLatch(i, msg) =>
      s.(listeners := s.listeners[l := if w.stepOf[l] in s.latched then CallEnqueue(i, msg) else CallOnInput(i, msg)])
    case CallOnInput(i, msg) => Handled(s, msg).(listeners := s.listeners[l := Visit(i)])
    case CallEnqueue(i, msg) =>
      var v := ThreadManager.AffinityIndex(hash, w.stepOf[l]);
      var s1 := s.(listeners := s.listeners[l := Visit(i)]);
      if refuse || |s.workers[v].queue| > ThreadManager.QUEUE_LIMIT then s1.(lost := s.lost + {msg})
      else s1.(workers := s.workers[v := s.workers[v].(queue := s.workers[v].queue + [msg])])
  }

  // ---------- the line of one pipe ----------

  /** The messages of pipe `p` with its worker: in flight, then queued. */
  function InPool(w: Wiring, hash: StepId -> nat, s: State, p: nat): seq<Message>
    requires Shape(w, s) && p < |w.listenerOf|
  {
    var worker := s.workers[Home(w, hash, p)];
    OfPipe(worker.inFlight, p) + OfPipe(worker.queue, p)
  }

  function InHand(w: Wiring, s: State, p: nat): seq<Message>
    requires Shape(w, s) && p < |w.listenerOf|
  {
    OfPipe(Holding(s.listeners[w.listenerOf[p]]), p)
  }

  /** All of pipe `p`'s messages that have been pushed and not lost, from handled to just pushed. */
  function Line(w: Wiring, hash: StepId -> nat, s: State, p: nat): seq<Message>
    requires Shape(w, s) && p < |w.listenerOf|
  {
    s.handled[p] + InPool(w, hash, s, p) + InHand(w, s, p) + s.rings[p]
  }

  /** Pool tasks sit with the worker of their step, and only a latched step has any. */
  ghost predicate PoolHomed(w: Wiring, hash: StepId -> nat, s: State)
    requires Shape(w, s)
  {
    && (forall v, k :: 0 <= v < |s.workers| && 0 <= k < |s.workers[v].queue| ==>
          Home(w, hash, s.workers[v].queue[k].pipe) == v)
    && (forall v :: 0 <= v < |s.workers| && s.workers[v].inFlight != [] ==>
          Home(w, hash, s.workers[v].inFlight[0].pipe) == v)
  }

  ghost predicate PipeInv(w: Wiring, hash: StepId -> nat, s: State, p: nat)
    requires Shape(w, s) && p < |w.listenerOf|
  {
    && LatchInv(w, hash, s, p)
    && InPushOrder(Line(w, hash, s, p), p, s.pushes[p])
    && Partitioned(Line(w, hash, s, p), s.lost, p, s.pushes[p])
  }

  lemma InitInv(w: Wiring)
    requires WellWired(w)
    ensures Shape(w, Init(w))
  {
  }

  // ---------- every step keeps the line ----------

  /** A listener takes the oldest message of one of its pipes. */
  lemma VisitShape(w: Wiring, hash: StepId -> nat, s: State, l: nat, shutdown: bool, refuse: bool)
    requires Shape(w, s) && l < |s.listeners| && s.listeners[l].Visit?
    ensures Shape(w, StepListener(w, hash, s, l, shutdown, refuse))
  {
    var t := StepListener(w, hash, s, l, shutdown, refuse);
    assert forall k :: 0 <= k < |s.listeners| && k != l ==> t.listeners[k] == s.listeners[k];
  }

  lemma EnqueueShape(w: Wiring, hash: StepId -> nat, s: State, l: nat, shutdown: bool, refuse: bool)
    requires Shape(w, s) && l < |s.listeners| && s.listeners[l].CallEnqueue?
    ensures Shape(w, StepListener(w, hash, s, l, shutdown, refuse))
  {
    var t := StepListener(w, hash, s, l, shutdown, refuse);
    assert forall k :: 0 <= k < |s.listeners| && k != l ==> t.listeners[k] == s.listeners[k];
    assert Holding(s.listeners[l]) == [s.listeners[l].msg];
  }

  lemma ListenerShape(w: Wiring, hash: StepId -> nat, s: State, l: nat, shutdown: bool, refuse: bool)
    requires Shape(w, s) && l < |s.listeners|
    ensures Shape(w, StepListener(w, hash, s, l, shutdown, refuse))
  {
    if s.listeners[l].Visit? {
      VisitShape(w, hash, s, l, shutdown, refuse);
    } else if s.listeners[l].CallEnqueue? {
      EnqueueShape(w, hash, s, l, shutdown, refuse);
    } else {
      var t := StepListener(w, hash, s, l, shutdown, refuse);
      assert forall k :: 0 <= k < |s.listeners| && k != l ==> t.listeners[k] == s.listeners[k];
    }
  }

  lemma StepShape(w: Wiring, hash: StepId -> nat, s: State, e: Event)
    requires Shape(w, s)
    ensures Shape(w, Step(w, hash, s, e))
  {
    match e
    case ListenerStep(l, shutdown, refuse) =>
      if l < |s.listeners| {
        ListenerShape(w, hash, s, l, shutdown, refuse);
      }
    case _ =>
  }

  lemma EnqueueHomed(w: Wiring, hash: StepId -> nat, s: State, l: nat, shutdown: bool, refuse: bool)
    requires Shape(w, s) && PoolHomed(w, hash, s) && l < |s.listeners| && s.listeners[l].CallEnqueue?
    ensures var t := StepListener(w, hash, s, l, shutdown, refuse);
            Shape(w, t) && PoolHomed(w, hash, t)
  {
    ListenerShape(w, hash, s, l, shutdown, refuse);
    assert Holding(s.listeners[l]) == [s.listeners[l].msg];
  }

  lemma WorkerHomed(w: Wiring, hash: StepId -> nat, s: State, e: Event)
    requires Shape(w, s) && PoolHomed(w, hash, s) && !e.ListenerStep?
    ensures Shape(w, Step(w, hash, s, e)) && PoolHomed(w, hash, Step(w, hash, s, e))
  {
    StepShape(w, hash, s, e);
    var t := Step(w, hash, s, e);
    if e.WorkerTake? {
      forall v, k | 0 <= v < |t.workers| && 0 <= k < |t.workers[v].queue|
        ensures Home(w, hash, t.workers[v].queue[k].pipe) == v
      {
        assert t.workers[v].queue[k] == s.workers[v].queue[k + |s.workers[v].queue| - |t.workers[v].queue|];
      }
    }
  }

  lemma StepHomed(w: Wiring, hash: StepId -> nat, s: State, e: Event)
    requires Shape(w, s) && PoolHomed(w, hash, s)
    ensures Shape(w, Step(w, hash, s, e)) && PoolHomed(w, hash, Step(w, hash, s, e))
  {
    StepShape(w, hash, s, e);
    if e.ListenerStep? {
      if e.listener < |s.listeners| {
        if s.listeners[e.listener].CallEnqueue? {
          EnqueueHomed(w, hash, s, e.listener, e.shutdown, e.refuse);
        } else {
          assert Step(w, hash, s, e).workers == s.workers;
        }
      }
    } else {
      WorkerHomed(w, hash, s, e);
    }
  }

  /** The parts a line is made of, and the latch facts, without the order. */
  ghost predicate LatchInv(w: Wiring, hash: StepId -> nat, s: State, p: nat)
    requires Shape(w, s) && p < |w.listenerOf|
  {
    var l := w.listenerOf[p];
    && (InPool(w, hash, s, p) != [] ==> w.stepOf[l] in s.latched)
    && (s.listeners[l].CallEnqueue? ==> w.stepOf[l] in s.latched)
    && (s.listeners[l].CallOnInput? && s.listeners[l].msg.pipe == p ==> InPool(w, hash, s, p) == [])
  }

  /** Handing messages on within the front half or the back half of the line leaves the line alone. */
  lemma PartsKeepLine(w: Wiring, hash: StepId -> nat, s: State, t: State, p: nat)
    requires Shape(w, s) && Shape(w, t) && p < |w.listenerOf|
    requires t.handled[p] + InPool(w, hash, t, p) == s.handled[p] + InPool(w, hash, s, p)
    requires InHand(w, t, p) + t.rings[p] == InHand(w, s, p) + s.rings[p]
    ensures Line(w, hash, t, p) == Line(w, hash, s, p)
  {
    Regroup(t.handled[p], InPool(w, hash, t, p), InHand(w, t, p), t.rings[p]);
    Regroup(s.handled[p], InPool(w, hash, s, p), InHand(w, s, p), s.rings[p]);
  }

  lemma ListenerFrame(w: Wiring, hash: StepId -> nat, s: State, l: nat, shutdown: bool, refuse: bool)
    requires Shape(w, s) && l < |s.listeners|
    ensures var t := StepListener(w, hash, s, l, shutdown, refuse);
            t.pushes == s.pushes && t.latched == s.latched && s.lost <= t.lost
  {
  }

  /** The line up to the ring: handled, with the worker, in the listener's hand. */
  function PastRing(w: Wiring, hash: StepId -> nat, s: State, p: nat): seq<Message>
    requires Shape(w, s) && p < |w.listenerOf|
  {
    s.handled[p] + InPool(w, hash, s, p) + InHand(w, s, p)
  }

  lemma PushLeavesRest(w: Wiring, hash: StepId -> nat, s: State, q: nat, p: nat)
    requires Shape(w, s) && q < |s.pushes| && p < |w.listenerOf|
    ensures var t := StepPush(s, q);
            Shape(w, t) && PastRing(w, hash, t, p) == PastRing(w, hash, s, p)
            && (LatchInv(w, hash, s, p) ==> LatchInv(w, hash, t, p))
  {
    var t := StepPush(s, q);
    StepShape(w, hash, s, Push(q));
    assert InPool(w, hash, t, p) == InPool(w, hash, s, p) && InHand(w, t, p) == InHand(w, s, p);
  }

  lemma PushMoves(w: Wiring, hash: StepId -> nat, s: State, q: nat, p: nat) returns (m: Move)
    requires Shape(w, s) && q < |s.pushes| && p < |w.listenerOf|
    ensures var t := StepPush(s, q);
            Shape(w, t) && s.lost <= t.lost
            && Moved(m, Line(w, hash, s, p), Line(w, hash, t, p), s.lost, t.lost, p, s.pushes[p], t.pushes[p])
            && (LatchInv(w, hash, s, p) ==> LatchInv(w, hash, t, p))
  {
    var t := StepPush(s, q);
    PushLeavesRest(w, hash, s, q, p);
    var front := PastRing(w, hash, s, p);
    assert Line(w, hash, s, p) == front + s.rings[p] && Line(w, hash, t, p) == front + t.rings[p];
    var msg := Message(p, s.pushes[p]);
    if q != p {
      m := Keep;
    } else if !s.started[p] {
      m := Refuse;
    } else if |s.rings[p]| < Pipe.PIPE_CAPACITY {
      m := Append;
      assert front + (s.rings[p] + [msg]) == front + s.rings[p] + [msg];
    } else {
      m := Replace(|front|);
      RingReplaces(front, s.rings[p], msg);
    }
  }

  lemma TakeKeepsLine(w: Wiring, hash: StepId -> nat, s: State, v: nat, p: nat)
    requires Shape(w, s) && v < |s.workers| && p < |w.listenerOf|
    requires s.workers[v].inFlight == [] && s.workers[v].queue != []
    ensures var t := Step(w, hash, s, WorkerTake(v));
            Shape(w, t) && InPool(w, hash, t, p) == InPool(w, hash, s, p)
  {
    StepShape(w, hash, s, WorkerTake(v));
    HeadTaken(s.workers[v].queue, p);
  }

  /** Running a task of pipe `p` moves it from the pool to what was handled. */
  lemma RunOwn(w: Wiring, hash: StepId -> nat, s: State, v: nat)
    requires Shape(w, s) && PoolHomed(w, hash, s) && v < |s.workers| && s.workers[v].inFlight != []
    ensures var t := Step(w, hash, s, WorkerRun(v));
            var p := s.workers[v].inFlight[0].pipe;
            Shape(w, t) && t.handled[p] + InPool(w, hash, t, p) == s.handled[p] + InPool(w, hash, s, p)
            && InPool(w, hash, s, p) != []
  {
    var t := Step(w, hash, s, WorkerRun(v));
    StepShape(w, hash, s, WorkerRun(v));
    var msg := s.workers[v].inFlight[0];
    assert s.workers[v].inFlight == [msg];
    OfPipeOne(msg, msg.pipe);
    var queued := OfPipe(s.workers[v].queue, msg.pipe);
    assert InPool(w, hash, s, msg.pipe) == [msg] + queued && InPool(w, hash, t, msg.pipe) == [] + queued;
    assert s.handled[msg.pipe] + [msg] + ([] + queued) == s.handled[msg.pipe] + ([msg] + queued);
  }

  /** Running a task of another pipe leaves pipe `p` alone. */
  lemma RunForeign(w: Wiring, hash: StepId -> nat, s: State, v: nat, p: nat)
    requires Shape(w, s) && v < |s.workers| && p < |w.listenerOf|
    requires s.workers[v].inFlight != [] && s.workers[v].inFlight[0].pipe != p
    ensures var t := Step(w, hash, s, WorkerRun(v));
            Shape(w, t) && t.handled[p] == s.handled[p] && InPool(w, hash, t, p) == InPool(w, hash, s, p)
  {
    StepShape(w, hash, s, WorkerRun(v));
    var msg := s.workers[v].inFlight[0];
    assert s.workers[v].inFlight == [msg];
    OfPipeOne(msg, p);
  }

  lemma RunKeepsLine(w: Wiring, hash: StepId -> nat, s: State, v: nat, p: nat)
    requires Shape(w, s) && PoolHomed(w, hash, s) && v < |s.workers| && p < |w.listenerOf|
    requires s.workers[v].inFlight != []
    ensures var t := Step(w, hash, s, WorkerRun(v));
            Shape(w, t) && t.handled[p] + InPool(w, hash, t, p) == s.handled[p] + InPool(w, hash, s, p)
            && (InPool(w, hash, s, p) == [] ==> InPool(w, hash, t, p) == [])
  {
    if s.workers[v].inFlight[0].pipe == p {
      RunOwn(w, hash, s, v);
    } else {
      RunForeign(w, hash, s, v, p);
    }
  }

  lemma SamePool(w: Wiring, hash: StepId -> nat, s: State, t: State, p: nat)
    requires Shape(w, s) && Shape(w, t) && p < |w.listenerOf| && t.workers == s.workers
    ensures InPool(w, hash, t, p) == InPool(w, hash, s, p)
  {
  }

  /** A task of another pipe is queued somewhere. */
  lemma ForeignPool(w: Wiring, hash: StepId -> nat, s: State, t: State, v: nat, msg: Message, p: nat)
    requires Shape(w, s) && Shape(w, t) && p < |w.listenerOf| && v < |s.workers| && msg.pipe != p
    requires t.workers == s.workers[v := s.workers[v].(queue := s.workers[v].queue + [msg])]
    ensures InPool(w, hash, t, p) == InPool(w, hash, s, p)
  {
  }

  lemma OtherListenerPool(w: Wiring, hash: StepId -> nat, s: State, l: nat, shutdown: bool, refuse: bool, p: nat)
    requires Shape(w, s) && l < |s.listeners| && p < |w.listenerOf| && w.listenerOf[p] != l
    ensures var t := StepListener(w, hash, s, l, shutdown, refuse);
            Shape(w, t) && InPool(w, hash, t, p) == InPool(w, hash, s, p)
  {
    var t := StepListener(w, hash, s, l, shutdown, refuse);
    ListenerShape(w, hash, s, l, shutdown, refuse);
    if t.workers == s.workers {
      SamePool(w, hash, s, t, p);
    } else {
      var msg := s.listeners[l].msg;
      assert Holding(s.listeners[l]) == [msg];
      ForeignPool(w, hash, s, t, ThreadManager.AffinityIndex(hash, w.stepOf[l]), msg, p);
    }
  }

  /** A listener step of another port does not touch pipe `p`. */
  lemma OtherListener(w: Wiring, hash: StepId -> nat, s: State, l: nat, shutdown: bool, refuse: bool, p: nat)
    requires Shape(w, s) && l < |s.listeners| && p < |w.listenerOf| && w.listenerOf[p] != l
    ensures var t := StepListener(w, hash, s, l, shutdown, refuse);
            Shape(w, t) && t.rings[p] == s.rings[p] && t.handled[p] == s.handled[p]
            && InPool(w, hash, t, p) == InPool(w, hash, s, p) && InHand(w, t, p) == InHand(w, s, p)
  {
    var t := StepListener(w, hash, s, l, shutdown, refuse);
    OtherListenerPool(w, hash, s, l, shutdown, refuse, p);
    assert t.listeners[w.listenerOf[p]] == s.listeners[w.listenerOf[p]];
    if s.listeners[l].CallOnInput? {
      assert Holding(s.listeners[l]) == [s.listeners[l].msg];
    }
  }

  /** A visit moves the oldest message of the visited pipe from the ring into the hand. */
  lemma OwnVisitTakes(w: Wiring, hash: StepId -> nat, s: State, shutdown: bool, refuse: bool, p: nat)
    requires Shape(w, s) && p < |w.listenerOf| && s.listeners[w.listenerOf[p]].Visit?
    requires Shape(w, StepListener(w, hash, s, w.listenerOf[p], shutdown, refuse))
    ensures var t := StepListener(w, hash, s, w.listenerOf[p], shutdown, refuse);
            InHand(w, t, p) + t.rings[p] == InHand(w, s, p) + s.rings[p]
  {
    var l := w.listenerOf[p];
    var t := StepListener(w, hash, s, l, shutdown, refuse);
    assert InHand(w, s, p) == [];
    if t.rings != s.rings {
      var q := w.pipesOf[l][s.listeners[l].next];
      assert Holding(t.listeners[l]) == [s.rings[q][0]];
      TakenOrNot(s.rings, q, p);
    }
  }

  /** Taking the oldest message of ring `q` takes it off the front of ring `p` if that is the same one. */
  lemma TakenOrNot(rings: seq<seq<Message>>, q: nat, p: nat)
    requires q < |rings| && p < |rings| && rings[q] != [] && rings[q][0].pipe == q
    ensures OfPipe([rings[q][0]], p) + rings[q := rings[q][1..]][p] == rings[p]
  {
    OfPipeOne(rings[q][0], p);
    if q == p {
      assert [rings[p][0]] + rings[p][1..] == rings[p];
    }
  }

  /** A listener step of pipe `p`'s own port that does not hand anything over. */
  lemma OwnListenerTakes(w: Wiring, hash: StepId -> nat, s: State, shutdown: bool, refuse: bool, p: nat)
    requires Shape(w, s) && p < |w.listenerOf|
    requires !s.listeners[w.listenerOf[p]].CallOnInput? && !s.listeners[w.listenerOf[p]].CallEnqueue?
    ensures var t := StepListener(w, hash, s, w.listenerOf[p], shutdown, refuse);
            Shape(w, t) && t.handled[p] == s.handled[p] && InPool(w, hash, t, p) == InPool(w, hash, s, p)
            && InHand(w, t, p) + t.rings[p] == InHand(w, s, p) + s.rings[p]
  {
    var l := w.listenerOf[p];
    var t := StepListener(w, hash, s, l, shutdown, refuse);
    ListenerShape(w, hash, s, l, shutdown, refuse);
    assert t.workers == s.workers && t.handled == s.handled;
    if s.listeners[l].Visit? {
      OwnVisitTakes(w, hash, s, shutdown, refuse, p);
    } else {
      assert t.rings == s.rings && Holding(t.listeners[l]) == Holding(s.listeners[l]);
    }
  }

  lemma OwnListenerRuns(w: Wiring, hash: StepId -> nat, s: State, shutdown: bool, refuse: bool, p: nat)
    requires Shape(w, s) && p < |w.listenerOf| && LatchInv(w, hash, s, p)
    requires s.listeners[w.listenerOf[p]].CallOnInput?
    ensures var t := StepListener(w, hash, s, w.listenerOf[p], shutdown, refuse);
            Shape(w, t) && Line(w, hash, t, p) == Line(w, hash, s, p) && InPool(w, hash, t, p) == InPool(w, hash, s, p)
  {
    var l := w.listenerOf[p];
    var t := StepListener(w, hash, s, l, shutdown, refuse);
    ListenerShape(w, hash, s, l, shutdown, refuse);
    SamePool(w, hash, s, t, p);
    var msg := s.listeners[l].msg;
    assert Holding(s.listeners[l]) == [msg];
    OfPipeOne(msg, p);
    RunsFromHand(s.handled[p], InPool(w, hash, s, p), msg, msg.pipe == p, s.rings[p]);
    assert InHand(w, t, p) == [];
  }

  /** enqueue accepts: the message moves from the hand to the end of the worker's queue. */
  lemma OwnListenerEnqueues(w: Wiring, hash: StepId -> nat, s: State, shutdown: bool, p: nat)
    requires Shape(w, s) && p < |w.listenerOf| && s.listeners[w.listenerOf[p]].CallEnqueue?
    requires |s.workers[Home(w, hash, p)].queue| <= ThreadManager.QUEUE_LIMIT
    ensures var t := StepListener(w, hash, s, w.listenerOf[p], shutdown, false);
            Shape(w, t) && Line(w, hash, t, p) == Line(w, hash, s, p)
  {
    var l := w.listenerOf[p];
    var t := StepListener(w, hash, s, l, shutdown, false);
    ListenerShape(w, hash, s, l, shutdown, false);
    var worker := s.workers[Home(w, hash, p)];
    TailQueued(worker.inFlight, worker.queue, Holding(s.listeners[l]), p);
    HandEmptied(s.handled[p], InPool(w, hash, s, p), InHand(w, s, p), s.rings[p]);
    assert InPool(w, hash, t, p) == InPool(w, hash, s, p) + InHand(w, s, p);
    assert InHand(w, t, p) == [];
  }

  ghost predicate LineMoved(w: Wiring, hash: StepId -> nat, s: State, t: State, p: nat, m: Move)
    requires Shape(w, s) && p < |w.listenerOf|
  {
    && Shape(w, t)
    && Moved(m, Line(w, hash, s, p), Line(w, hash, t, p), s.lost, t.lost, p, s.pushes[p], t.pushes[p])
  }

  lemma LineKept(w: Wiring, hash: StepId -> nat, s: State, t: State, p: nat)
    requires Shape(w, s) && Shape(w, t) && p < |w.listenerOf|
    requires t.pushes == s.pushes && LostGrows(s.lost, t.lost, p, {}) && Line(w, hash, t, p) == Line(w, hash, s, p)
    ensures LineMoved(w, hash, s, t, p, Keep)
  {
  }

  lemma ListenerLoses(w: Wiring, hash: StepId -> nat, s: State, l: nat, shutdown: bool, refuse: bool)
    requires Shape(w, s) && l < |s.listeners|
    ensures var t := StepListener(w, hash, s, l, shutdown, refuse);
            t.lost == s.lost || (s.listeners[l].CallEnqueue? && t.lost == s.lost + {s.listeners[l].msg})
    ensures var t := StepListener(w, hash, s, l, shutdown, refuse);
            s.listeners[l].CallEnqueue? && !refuse
            && |s.workers[ThreadManager.AffinityIndex(hash, w.stepOf[l])].queue| <= ThreadManager.QUEUE_LIMIT
            ==> t.lost == s.lost
  {
  }

  /** enqueue refuses or its queue is full: the message in hand is lost. */
  lemma OwnListenerLoses(w: Wiring, hash: StepId -> nat, s: State, shutdown: bool, refuse: bool, p: nat)
    returns (m: Move)
    requires Shape(w, s) && p < |w.listenerOf| && s.listeners[w.listenerOf[p]].CallEnqueue?
    requires refuse || |s.workers[Home(w, hash, p)].queue| > ThreadManager.QUEUE_LIMIT
    ensures LineMoved(w, hash, s, StepListener(w, hash, s, w.listenerOf[p], shutdown, refuse), p, m)
  {
    var l := w.listenerOf[p];
    var t := StepListener(w, hash, s, l, shutdown, refuse);
    ListenerShape(w, hash, s, l, shutdown, refuse);
    var msg := s.listeners[l].msg;
    assert Holding(s.listeners[l]) == [msg];
    OfPipeOne(msg, p);
    assert InHand(w, t, p) == [];
    var front := s.handled[p] + InPool(w, hash, s, p);
    HandLost(front, msg, s.rings[p]);
    m := if msg.pipe == p then Lose(|front|) else Keep;
  }

  lemma OtherListenerMoves(w: Wiring, hash: StepId -> nat, s: State, l: nat, shutdown: bool, refuse: bool, p: nat)
    requires Shape(w, s) && l < |s.listeners| && p < |w.listenerOf| && w.listenerOf[p] != l
    ensures var t := StepListener(w, hash, s, l, shutdown, refuse);
            && Shape(w, t) && t.pushes == s.pushes && LostGrows(s.lost, t.lost, p, {})
            && Line(w, hash, t, p) == Line(w, hash, s, p)
  {
    var t := StepListener(w, hash, s, l, shutdown, refuse);
    OtherListener(w, hash, s, l, shutdown, refuse, p);
    PartsKeepLine(w, hash, s, t, p);
    ListenerFrame(w, hash, s, l, shutdown, refuse);
    ListenerLoses(w, hash, s, l, shutdown, refuse);
    OtherListenerHolds(w, s, l, p);
  }

  /** What it holds is of another pipe. */
  lemma OtherListenerHolds(w: Wiring, s: State, l: nat, p: nat)
    requires Shape(w, s) && l < |s.listeners| && p < |w.listenerOf| && w.listenerOf[p] != l
    ensures s.listeners[l].CallEnqueue? ==> s.listeners[l].msg.pipe != p
  {
    assert Holding(s.listeners[l]) != [] ==> s.listeners[l].msg.pipe != p;
  }

  lemma OwnListenerMoves(w: Wiring, hash: StepId -> nat, s: State, shutdown: bool, refuse: bool, p: nat)
    returns (m: Move)
    requires Shape(w, s) && p < |w.listenerOf| && LatchInv(w, hash, s, p)
    ensures LineMoved(w, hash, s, StepListener(w, hash, s, w.listenerOf[p], shutdown, refuse), p, m)
  {
    m := Keep;
    var l := w.listenerOf[p];
    var t := StepListener(w, hash, s, l, shutdown, refuse);
    ListenerFrame(w, hash, s, l, shutdown, refuse);
    ListenerLoses(w, hash, s, l, shutdown, refuse);
    if s.listeners[l].CallOnInput? {
      OwnListenerRuns(w, hash, s, shutdown, refuse, p);
      LineKept(w, hash, s, t, p);
    } else if !s.listeners[l].CallEnqueue? {
      OwnListenerTakes(w, hash, s, shutdown, refuse, p);
      PartsKeepLine(w, hash, s, t, p);
      LineKept(w, hash, s, t, p);
    } else if refuse || |s.workers[Home(w, hash, p)].queue| > ThreadManager.QUEUE_LIMIT {
      m := OwnListenerLoses(w, hash, s, shutdown, refuse, p);
    } else {
      OwnListenerEnqueues(w, hash, s, shutdown, p);
      LineKept(w, hash, s, t, p);
    }
  }

  /** One listener step, of the port of pipe `p` or another. */
  lemma ListenerMoves(w: Wiring, hash: StepId -> nat, s: State, l: nat, shutdown: bool, refuse: bool, p: nat)
    returns (m: Move)
    requires Shape(w, s) && l < |s.listeners| && p < |w.listenerOf| && LatchInv(w, hash, s, p)
    ensures var t := StepListener(w, hash, s, l, shutdown, refuse);
            Shape(w, t) && s.lost <= t.lost
            && Moved(m, Line(w, hash, s, p), Line(w, hash, t, p), s.lost, t.lost, p, s.pushes[p], t.pushes[p])
  {
    ListenerFrame(w, hash, s, l, shutdown, refuse);
    if w.listenerOf[p] == l {
      m := OwnListenerMoves(w, hash, s, shutdown, refuse, p);
    } else {
      m := Keep;
      OtherListenerMoves(w, hash, s, l, shutdown, refuse, p);
    }
  }

  /** The listener is where it was, or not about to hand a message over. */
  predicate HandsNothingOver(before: ListenerAt, after: ListenerAt) {
    after == before || (!after.CallEnqueue? && !after.CallOnInput?)
  }

  lemma LatchKept(w: Wiring, hash: StepId -> nat, s: State, t: State, p: nat)
    requires Shape(w, s) && Shape(w, t) && p < |w.listenerOf| && LatchInv(w, hash, s, p) && t.latched == s.latched
    requires InPool(w, hash, s, p) == [] ==> InPool(w, hash, t, p) == []
    requires HandsNothingOver(s.listeners[w.listenerOf[p]], t.listeners[w.listenerOf[p]])
    ensures LatchInv(w, hash, t, p)
  {
  }

  lemma OwnLatch(w: Wiring, hash: StepId -> nat, s: State, shutdown: bool, refuse: bool, p: nat)
    requires Shape(w, s) && p < |w.listenerOf| && LatchInv(w, hash, s, p)
    ensures var t := StepListener(w, hash, s, w.listenerOf[p], shutdown, refuse);
            Shape(w, t) && LatchInv(w, hash, t, p)
  {
    var l := w.listenerOf[p];
    var t := StepListener(w, hash, s, l, shutdown, refuse);
    ListenerShape(w, hash, s, l, shutdown, refuse);
    if s.listeners[l].LoadLatch? {
      SamePool(w, hash, s, t, p);
    } else if !s.listeners[l].CallEnqueue? {
      SamePool(w, hash, s, t, p);
      LatchKept(w, hash, s, t, p);
    }
  }

  lemma ListenerLatch(w: Wiring, hash: StepId -> nat, s: State, l: nat, shutdown: bool, refuse: bool, p: nat)
    requires Shape(w, s) && l < |s.listeners| && p < |w.listenerOf| && LatchInv(w, hash, s, p)
    ensures var t := StepListener(w, hash, s, l, shutdown, refuse);
            Shape(w, t) && LatchInv(w, hash, t, p)
  {
    if w.listenerOf[p] == l {
      OwnLatch(w, hash, s, shutdown, refuse, p);
    } else {
      var t := StepListener(w, hash, s, l, shutdown, refuse);
      ListenerFrame(w, hash, s, l, shutdown, refuse);
      OtherListenerPool(w, hash, s, l, shutdown, refuse, p);
      LatchKept(w, hash, s, t, p);
    }
  }

  lemma WorkerMoves(w: Wiring, hash: StepId -> nat, s: State, e: Event, p: nat)
    requires Shape(w, s) && PoolHomed(w, hash, s) && p < |w.listenerOf| && LatchInv(w, hash, s, p)
    requires e.WorkerTake? || e.WorkerRun?
    ensures var t := Step(w, hash, s, e);
            Shape(w, t) && t.lost == s.lost && t.pushes == s.pushes && LatchInv(w, hash, t, p)
            && Line(w, hash, t, p) == Line(w, hash, s, p)
  {
    StepShape(w, hash, s, e);
    WorkerFrame(w, hash, s, e);
    WorkerKeepsPool(w, hash, s, e, p);
    PoolMoves(w, hash, s, Step(w, hash, s, e), p);
  }

  lemma WorkerFrame(w: Wiring, hash: StepId -> nat, s: State, e: Event)
    requires Shape(w, s) && (e.WorkerTake? || e.WorkerRun?)
    ensures var t := Step(w, hash, s, e);
            t.listeners == s.listeners && t.rings == s.rings && t.latched == s.latched && t.lost == s.lost
            && t.pushes == s.pushes
  {
  }

  /** Messages only move on from the pool. */
  lemma PoolMoves(w: Wiring, hash: StepId -> nat, s: State, t: State, p: nat)
    requires Shape(w, s) && Shape(w, t) && p < |w.listenerOf| && LatchInv(w, hash, s, p)
    requires t.listeners == s.listeners && t.rings == s.rings && t.latched == s.latched
    requires t.handled[p] + InPool(w, hash, t, p) == s.handled[p] + InPool(w, hash, s, p)
    requires InPool(w, hash, s, p) == [] ==> InPool(w, hash, t, p) == []
    ensures Line(w, hash, t, p) == Line(w, hash, s, p) && LatchInv(w, hash, t, p)
  {
    assert InHand(w, t, p) == InHand(w, s, p);
    PartsKeepLine(w, hash, s, t, p);
    LatchKept(w, hash, s, t, p);
  }

  lemma WorkerKeepsPool(w: Wiring, hash: StepId -> nat, s: State, e: Event, p: nat)
    requires Shape(w, s) && PoolHomed(w, hash, s) && p < |w.listenerOf| && (e.WorkerTake? || e.WorkerRun?)
    ensures var t := Step(w, hash, s, e);
            Shape(w, t) && t.handled[p] + InPool(w, hash, t, p) == s.handled[p] + InPool(w, hash, s, p)
            && (InPool(w, hash, s, p) == [] ==> InPool(w, hash, t, p) == [])
  {
    StepShape(w, hash, s, e);
    if e.worker < |s.workers| {
      if e.WorkerTake? && s.workers[e.worker].inFlight == [] && s.workers[e.worker].queue != [] {
        TakeKeepsLine(w, hash, s, e.worker, p);
      } else if e.WorkerRun? && s.workers[e.worker].inFlight != [] {
        RunKeepsLine(w, hash, s, e.worker, p);
      }
    }
  }

  lemma QuietMoves(w: Wiring, hash: StepId -> nat, s: State, e: Event, p: nat)
    requires Shape(w, s) && p < |w.listenerOf| && LatchInv(w, hash, s, p)
    requires e.StopPipe? || e.StartListener? || e.Latch?
    ensures var t := Step(w, hash, s, e);
            Shape(w, t) && t.lost == s.lost && t.pushes == s.pushes && LatchInv(w, hash, t, p)
            && Line(w, hash, t, p) == Line(w, hash, s, p)
  {
    var t := Step(w, hash, s, e);
    StepShape(w, hash, s, e);
    QuietKeepsParts(w, hash, s, t, p);
  }

  lemma QuietKeepsParts(w: Wiring, hash: StepId -> nat, s: State, t: State, p: nat)
    requires Shape(w, s) && Shape(w, t) && p < |w.listenerOf|
    requires t.handled == s.handled && t.workers == s.workers && t.rings == s.rings
    requires t.listeners[w.listenerOf[p]] == s.listeners[w.listenerOf[p]]
             || (s.listeners[w.listenerOf[p]].Gone? && t.listeners[w.listenerOf[p]].LoopTest?)
    requires s.latched <= t.latched
    ensures Line(w, hash, t, p) == Line(w, hash, s, p) && (LatchInv(w, hash, s, p) ==> LatchInv(w, hash, t, p))
  {
    assert InHand(w, t, p) == InHand(w, s, p) && InPool(w, hash, t, p) == InPool(w, hash, s, p);
  }

  /** What one event may do to pipe `p`. */
  ghost predicate StepOk(w: Wiring, hash: StepId -> nat, s: State, t: State, p: nat, m: Move)
    requires Shape(w, s) && p < |w.listenerOf|
  {
    && Shape(w, t) && s.lost <= t.lost && LatchInv(w, hash, t, p)
    && Moved(m, Line(w, hash, s, p), Line(w, hash, t, p), s.lost, t.lost, p, s.pushes[p], t.pushes[p])
  }

  /** One event moves the line of pipe `p` as allowed and keeps the latch facts. */
  lemma StepMoves(w: Wiring, hash: StepId -> nat, s: State, e: Event, p: nat) returns (m: Move)
    requires Shape(w, s) && PoolHomed(w, hash, s) && p < |w.listenerOf| && LatchInv(w, hash, s, p)
    ensures StepOk(w, hash, s, Step(w, hash, s, e), p, m)
  {
    m := Keep;
    if e.Push? {
      if e.pipe < |s.pushes| {
        m := PushMoves(w, hash, s, e.pipe, p);
      }
    } else if e.ListenerStep? {
      if e.listener < |s.listeners| {
        m := ListenerMoves(w, hash, s, e.listener, e.shutdown, e.refuse, p);
        ListenerLatch(w, hash, s, e.listener, e.shutdown, e.refuse, p);
      }
    } else if e.WorkerTake? || e.WorkerRun? {
      WorkerMoves(w, hash, s, e, p);
    } else {
      QuietMoves(w, hash, s, e, p);
    }
  }

  // ---------- when a message is lost ----------

  /** A push on a running pipe queues its message last, and loses the oldest one if 32 were queued; a push on a stopped
      pipe loses its message. It touches nothing else. */
  lemma PushEffect(w: Wiring, hash: StepId -> nat, s: State, p: nat)
    requires Shape(w, s) && p < |s.pushes|
    ensures var t := Step(w, hash, s, Push(p));
            var msg := Message(p, s.pushes[p]);
            && |t.rings| == |s.rings| && (forall q :: 0 <= q < |s.rings| && q != p ==> t.rings[q] == s.rings[q])
            && (s.started[p] && |s.rings[p]| < 32 ==> t.rings[p] == s.rings[p] + [msg] && t.lost == s.lost)
            && (s.started[p] && |s.rings[p]| >= 32 ==>
                  t.rings[p] == s.rings[p][1..] + [msg] && t.lost == s.lost + {s.rings[p][0]})
            && (!s.started[p] ==> t.rings[p] == s.rings[p] && t.lost == s.lost + {msg})
            && t.pushes == s.pushes[p := s.pushes[p] + 1] && t.handled == s.handled && t.workers == s.workers
            && t.listeners == s.listeners && t.started == s.started && t.latched == s.latched
  {
  }

  /** The event loses `msg`: it is pushed on a stopped pipe, it is the oldest one of a full ring that is pushed on, or
      the enqueue of it is refused or finds more than 2048 tasks queued. */
  predicate Loses(w: Wiring, hash: StepId -> nat, s: State, e: Event, msg: Message)
    requires Shape(w, s)
  {
    match e
    case Push(p) =>
      p < |s.pushes|
      && if s.started[p] then |s.rings[p]| >= 32 && msg == s.rings[p][0] else msg == Message(p, s.pushes[p])
    case ListenerStep(l, _, refuse) =>
      l < |s.listeners| && s.listeners[l].CallEnqueue? && msg == s.listeners[l].msg
      && (refuse || |s.workers[hash(w.stepOf[l]) % 4].queue| > 2048)
    case _ => false
  }

  lemma StepLoses(w: Wiring, hash: StepId -> nat, s: State, e: Event, msg: Message)
    requires Shape(w, s)
    ensures msg in Step(w, hash, s, e).lost <==> msg in s.lost || Loses(w, hash, s, e, msg)
  {
    match e
    case Push(p) =>
      if p < |s.pushes| {
        PushEffect(w, hash, s, p);
      }
    case ListenerStep(l, shutdown, refuse) =>
      if l < |s.listeners| {
        ListenerLoses(w, hash, s, l, shutdown, refuse);
      }
    case _ =>
  }

  /** Stopping a pipe stops it, and nothing else stops or starts one. */
  lemma StopEffect(w: Wiring, hash: StepId -> nat, s: State, e: Event, p: nat)
    requires Shape(w, s) && p < |s.started|
    ensures var t := Step(w, hash, s, e);
            |t.started| == |s.started| && t.started[p] == (s.started[p] && e != StopPipe(p))
  {
  }

  // ---------- how a message gets through ----------

  predicate StepOfListener(e: Event, l: nat) {
    e.ListenerStep? && e.listener == l
  }

  /** Without the latch three steps of the listener hand the oldest message of the pipe it visits to on_input. */
  lemma HandedInline(w: Wiring, hash: StepId -> nat, s: State, l: nat, i: nat, a: Event, b: Event, c: Event)
    requires Shape(w, s) && l < |s.listeners| && s.listeners[l] == Visit(i) && i < |w.pipesOf[l]|
    requires s.rings[w.pipesOf[l][i]] != [] && w.stepOf[l] !in s.latched
    requires StepOfListener(a, l) && StepOfListener(b, l) && StepOfListener(c, l)
    ensures var s1 := Step(w, hash, s, a);
            && Shape(w, s1)
            && var s2 := Step(w, hash, s1, b);
               && Shape(w, s2)
               && var t, p := Step(w, hash, s2, c), w.pipesOf[l][i];
                  t == s.(handled := s.handled[p := s.handled[p] + [s.rings[p][0]]],
                          rings := s.rings[p := s.rings[p][1..]], listeners := s.listeners[l := Visit(i + 1)])
  {
    var p := w.pipesOf[l][i];
    var msg := s.rings[p][0];
    StepShape(w, hash, s, a);
    var s1 := Step(w, hash, s, a);
    assert s1.listeners[l] == LoadLatch(i + 1, msg);
    StepShape(w, hash, s1, b);
    var s2 := Step(w, hash, s1, b);
    assert s2.listeners[l] == CallOnInput(i + 1, msg) && msg.pipe == p;
    assert s2.listeners[l := Visit(i + 1)] == s.listeners[l := Visit(i + 1)];
  }

  /** With it the same three steps queue the message with the worker its step is bound to, if enqueue takes it. */
  lemma HandedToPool(w: Wiring, hash: StepId -> nat, s: State, l: nat, i: nat, a: Event, b: Event, c: Event)
    requires Shape(w, s) && l < |s.listeners| && s.listeners[l] == Visit(i) && i < |w.pipesOf[l]|
    requires s.rings[w.pipesOf[l][i]] != [] && w.stepOf[l] in s.latched
    requires StepOfListener(a, l) && StepOfListener(b, l) && StepOfListener(c, l) && !c.refuse
    requires |s.workers[hash(w.stepOf[l]) % 4].queue| <= 2048
    ensures var s1 := Step(w, hash, s, a);
            && Shape(w, s1)
            && var s2 := Step(w, hash, s1, b);
               && Shape(w, s2)
               && var t, p, v := Step(w, hash, s2, c), w.pipesOf[l][i], hash(w.stepOf[l]) % 4;
                  t == s.(workers := s.workers[v := s.workers[v].(queue := s.workers[v].queue + [s.rings[p][0]])],
                          rings := s.rings[p := s.rings[p][1..]], listeners := s.listeners[l := Visit(i + 1)])
  {
    var msg := s.rings[w.pipesOf[l][i]][0];
    StepShape(w, hash, s, a);
    var s1 := Step(w, hash, s, a);
    assert s1.listeners[l] == LoadLatch(i + 1, msg);
    StepShape(w, hash, s1, b);
    var s2 := Step(w, hash, s1, b);
    assert s2.listeners[l] == CallEnqueue(i + 1, msg);
    assert s2.listeners[l := Visit(i + 1)] == s.listeners[l := Visit(i + 1)];
  }

  /** And two steps of that worker hand its oldest message to on_input. */
  lemma HandedByWorker(w: Wiring, hash: StepId -> nat, s: State, v: nat)
    requires Shape(w, s) && v < |s.workers| && s.workers[v].inFlight == [] && s.workers[v].queue != []
    ensures var s1 := Step(w, hash, s, WorkerTake(v));
            && Shape(w, s1)
            && var t, msg := Step(w, hash, s1, WorkerRun(v)), s.workers[v].queue[0];
               t == s.(handled := s.handled[msg.pipe := s.handled[msg.pipe] + [msg]],
                       workers := s.workers[v := Worker(s.workers[v].queue[1..], [])])
  {
    StepShape(w, hash, s, WorkerTake(v));
    var s1 := Step(w, hash, s, WorkerTake(v));
    assert s1.workers[v := Worker(s.workers[v].queue[1..], [])]
           == s.workers[v := Worker(s.workers[v].queue[1..], [])];
  }

  /** A pass visits the pipes in turn, waits at an empty running one and leaves an empty stopped one, and starts over
      until shutdown is requested. The latch of a step is set between two passes. */
  lemma PassGoesOn(w: Wiring, hash: StepId -> nat, s: State, l: nat, shutdown: bool, refuse: bool)
    requires Shape(w, s) && l < |s.listeners|
    ensures var t := Step(w, hash, s, ListenerStep(l, shutdown, refuse));
            && (s.listeners[l] == LoopTest ==>
                  t == s.(listeners := s.listeners[l := if shutdown then Gone else Visit(0)]))
            && (s.listeners[l] == Visit(|w.pipesOf[l]|) ==> t == s.(listeners := s.listeners[l := LoopTest]))
            && (forall i: nat :: i < |w.pipesOf[l]| && s.listeners[l] == Visit(i) && s.rings[w.pipesOf[l][i]] == [] ==>
                  t == if s.started[w.pipesOf[l][i]] then s else s.(listeners := s.listeners[l := Visit(i + 1)]))
    ensures s.listeners[l] == LoopTest ==>
              Step(w, hash, s, Latch(l)) == s.(latched := s.latched + {w.stepOf[l]})
    ensures s.listeners[l] == Gone ==>
              Step(w, hash, s, StartListener(l)) == s.(listeners := s.listeners[l := LoopTest])
  {
  }
}
