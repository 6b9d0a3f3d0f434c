/** Stopping a step, sdk/fins/step.hpp:208-239 and 253-356: stop_threads against the listener threads of the step and
    against everything else that touches the pipe factory (sdk/fins/pipe.hpp:123-164). A pop_wait that would sleep is
    a step that changes nothing; PipeWakeup says that it wakes up in time. */
module StopThreads {
  type PipeId = string

  /** A pipe object, with the number of messages in it. */
  datatype PipeObject = PipeObject(id: PipeId, started: bool, backlog: nat)

  /** A listener: looking its pipes up under pipes_mutex_, at the loop condition, in pop_wait on one of its pipes, or
      handling a message from it. */
  datatype Listener =
    | Starting
    | Looking(todo: seq<PipeId>, held: seq<nat>)
    | AtTop(held: seq<nat>)
    | Waiting(held: seq<nat>, next: nat)
    | Handling(held: seq<nat>, next: nat)
    | Left

  /** stop_threads: the flag is set, pipes_mutex_ is awaited, pipes are looked up and notified, threads are joined. */
  datatype Stopper =
    | Idle
    | Flagged
    | Finding(todo: seq<PipeId>)
    | Notifying(pipe: nat, todo: seq<PipeId>)
    | Joining(port: nat)

  datatype Owner = Free | StopperOwns | ListenerOwns(port: nat)

  /** Pipe objects by number, the factory's current one for each id, and one step with its input ports. */
  datatype State = State(
    pipes: seq<PipeObject>, factory: map<PipeId, nat>, pipesIn: seq<seq<PipeId>>, mutex: Owner,
    shutdown: bool, listeners: seq<Listener>, stopper: Stopper)

  datatype Event =
    | StartThreads
    | CallStop
    | StopperStep
    | ListenerStep(port: nat)
    | Push(pipe: nat)
    | GetPipe(id: PipeId)
    | StopPipe(pipe: nat)
    | Erase(id: PipeId)
    | AddInput(port: nat, id: PipeId)
    | RemoveAllPipes

  function Init(inputs: nat): State {
    State([], map[], seq(inputs, _ => []), Free, false, [], Idle)
  }

  function Concat(lists: seq<seq<PipeId>>): (ids: seq<PipeId>) {
    if lists == [] then [] else Concat(lists[..|lists| - 1]) + lists[|lists| - 1]
  }

  /** An event that is not possible changes nothing. A push that saw the pipe started may land after it was stopped, so
      Push does not ask. remove_pipe, clear and stop_all are made of StopPipe and Erase. */
  function Step(s: State, e: Event): State {
    match e
    case StartThreads =>
      if s.stopper.Idle? && s.listeners == []
      then s.(shutdown := false, listeners := seq(|s.pipesIn|, _ => Starting)) else s
    case CallStop => if s.stopper.Idle? then s.(shutdown := true, stopper := Flagged) else s
    case StopperStep => StepStopper(s)
    case ListenerStep(i) => if i < |s.listeners| then StepListener(s, i) else s
    case Push(p) =>
      if p < |s.pipes| then s.(pipes := s.pipes[p := s.pipes[p].(backlog := s.pipes[p].backlog + 1)]) else s
    case GetPipe(id) => WithPipe(s, id)
    case StopPipe(p) => if p < |s.pipes| then s.(pipes := s.pipes[p := s.pipes[p].(started := false)]) else s
    case Erase(id) => if StoppedId(s, id) then s.(factory := s.factory - {id}) else s
    case AddInput(i, id) =>
      if s.mutex.Free? && i < |s.pipesIn| then
        var t := WithPipe(s, id);
        if id in s.pipesIn[i] then t else t.(pipesIn := t.pipesIn[i := t.pipesIn[i] + [id]])
      else s
    case RemoveAllPipes =>
      if s.stopper.Idle? && s.listeners == [] then s.(pipesIn := seq(|s.pipesIn|, _ => [])) else s
  }

  /** The factory's pipe for the id is stopped: remove_pipe and clear stop a pipe before they erase it. */
  predicate StoppedId(s: State, id: PipeId) {
    id in s.factory && s.factory[id] < |s.pipes| && !s.pipes[s.factory[id]].started
  }

  function WithPipe(s: State, id: PipeId): State {
    if id in s.factory then s
    else s.(pipes := s.pipes + [PipeObject(id, true, 0)], factory := s.factory[id := |s.pipes|])
  }

  function StepStopper(s: State): State {
    match s.stopper
    case Idle => s
    case Flagged => if s.mutex.Free? then s.(mutex := StopperOwns, stopper := Finding(Concat(s.pipesIn))) else s
    case Finding(todo) =>
      if todo == [] then s.(mutex := Free, stopper := Joining(0))
      else if todo[0] in s.factory then s.(stopper := Notifying(s.factory[todo[0]], todo[1..]))
      else s.(stopper := Finding(todo[1..]))
    case Notifying(p, todo) =>
      if p < |s.pipes| then s.(pipes := s.pipes[p := s.pipes[p].(started := false)], stopper := Finding(todo))
      else s
    case Joining(i) =>
      if i >= |s.listeners| then s.(listeners := [], stopper := Idle)
      else if s.listeners[i].Left? then s.(stopper := Joining(i + 1))
      else s
  }

  function StepListener(s: State, i: nat): State
    requires i < |s.listeners|
  {
    match s.listeners[i]
    case Starting =>
      if s.mutex.Free? && i < |s.pipesIn|
      then s.(mutex := ListenerOwns(i), listeners := s.listeners[i := Looking(s.pipesIn[i], [])]) else s
    case Looking(todo, held) =>
      if todo == [] then s.(mutex := Free, listeners := s.listeners[i := if held == [] then Left else AtTop(held)])
      else s.(listeners := s.listeners[i := Looking(todo[1..], held + Found(s, todo[0]))])
    case AtTop(held) => s.(listeners := s.listeners[i := if s.shutdown then Left else Waiting(held, 0)])
    case Waiting(held, k) =>
      if k >= |held| then s.(listeners := s.listeners[i := AtTop(held)])
      else if held[k] >= |s.pipes| then s
      else if s.pipes[held[k]].backlog > 0 then
        s.(pipes := s.pipes[held[k] := s.pipes[held[k]].(backlog := s.pipes[held[k]].backlog - 1)],
           listeners := s.listeners[i := Handling(held, k)])
      else if !s.pipes[held[k]].started then s.(listeners := s.listeners[i := Waiting(held, k + 1)])
      else s
    case Handling(held, k) => s.(listeners := s.listeners[i := Waiting(held, k + 1)])
    case Left => s
  }

  /** find_pipe. */
  function Found(s: State, id: PipeId): seq<nat> {
    if id in s.factory then [s.factory[id]] else []
  }

  function Exec(s: State, events: seq<Event>): State {
    if events == [] then s else Step(Exec(s, events[..|events| - 1]), events[|events| - 1])
  }

  // ---------- the invariant ----------

  function HeldBy(l: Listener): seq<nat> {
    match l
    case Looking(_, held) => held
    case AtTop(held) => held
    case Waiting(held, _) => held
    case Handling(held, _) => held
    case _ => []
  }

  predicate InPass(l: Listener) {
    l.Waiting? || l.Handling?
  }

  predicate StoppedPipe(s: State, p: nat) {
    p < |s.pipes| && !s.pipes[p].started
  }

  predicate Current(s: State, p: nat) {
    p < |s.pipes| && s.pipes[p].id in s.factory && s.factory[s.pipes[p].id] == p
  }

  /** stop_threads can still reach the pipe: it is stopped, or the factory hands it out for an id of the port. */
  predicate Reachable(s: State, i: nat, p: nat) {
    && p < |s.pipes|
    && (StoppedPipe(s, p) || (Current(s, p) && i < |s.pipesIn| && s.pipes[p].id in s.pipesIn[i]))
  }

  ghost predicate FactoryFits(s: State) {
    forall id :: id in s.factory ==> s.factory[id] < |s.pipes| && s.pipes[s.factory[id]].id == id
  }

  /** What notifying has not reached yet. */
  predicate Pending(s: State, p: nat) {
    match s.stopper
    case Finding(todo) => p < |s.pipes| && s.pipes[p].id in todo
    case Notifying(q, todo) => p == q || (p < |s.pipes| && s.pipes[p].id in todo)
    case Joining(_) => false
    case _ => true
  }

  ghost predicate HeldReachable(s: State, i: nat, l: Listener) {
    forall p :: p in HeldBy(l) ==> Reachable(s, i, p)
  }

  ghost predicate NotifyCovers(s: State, l: Listener) {
    InPass(l) || !s.stopper.Joining? ==> forall p :: p in HeldBy(l) ==> StoppedPipe(s, p) || Pending(s, p)
  }

  ghost predicate ControlFits(s: State, i: nat, l: Listener) {
    && (l.Looking? <==> s.mutex == ListenerOwns(i))
    && (l.Looking? && i < |s.pipesIn| ==> forall id :: id in l.todo ==> id in s.pipesIn[i])
    && (InPass(l) ==> l.next <= |l.held| && (l.Handling? ==> l.next < |l.held|))
    && (s.stopper.Joining? && i < s.stopper.port ==> l.Left?)
  }

  ghost predicate ListenerOk(s: State, i: nat, l: Listener) {
    HeldReachable(s, i, l) && NotifyCovers(s, l) && ControlFits(s, i, l)
  }

  ghost predicate StopperOk(s: State) {
    && (s.mutex.StopperOwns? <==> s.stopper.Finding? || s.stopper.Notifying?)
    && (s.mutex.ListenerOwns? ==> s.mutex.port < |s.listeners|)
    && (s.listeners == [] || |s.listeners| == |s.pipesIn|)
    && (!s.stopper.Idle? ==> s.shutdown)
    && (s.stopper.Idle? && s.shutdown ==> s.listeners == [])
    && (s.stopper.Notifying? ==> s.stopper.pipe < |s.pipes|)
    && (s.stopper.Joining? ==> s.stopper.port <= |s.listeners|)
  }

  ghost predicate Inv(s: State) {
    && FactoryFits(s) && StopperOk(s)
    && (forall i :: 0 <= i < |s.listeners| ==> ListenerOk(s, i, s.listeners[i]))
  }

  /** No pipe gets out of reach, and nothing else the listeners depend on changes. */
  ghost predicate KeepsReach(s: State, t: State) {
    && t.stopper == s.stopper && t.mutex == s.mutex && |s.pipes| <= |t.pipes|
    && |t.pipesIn| == |s.pipesIn|
    && (forall p :: 0 <= p < |s.pipes| ==>
          t.pipes[p].id == s.pipes[p].id && (!s.pipes[p].started ==> !t.pipes[p].started))
    && (forall i :: 0 <= i < |s.pipesIn| ==> forall id :: id in s.pipesIn[i] ==> id in t.pipesIn[i])
    && (forall id :: id in s.factory ==>
          StoppedPipe(s, s.factory[id]) || (id in t.factory && t.factory[id] == s.factory[id]))
  }

  lemma AllReachKept(s: State, t: State)
    requires Inv(s) && KeepsReach(s, t) && t.listeners == s.listeners
    ensures forall i :: 0 <= i < |t.listeners| ==> ListenerOk(t, i, t.listeners[i])
  {
    forall i | 0 <= i < |t.listeners| ensures ListenerOk(t, i, t.listeners[i]) {
    }
  }

  lemma {:induction false} ConcatHasAll(lists: seq<seq<PipeId>>, i: nat, id: PipeId)
    requires i < |lists| && id in lists[i]
    ensures id in Concat(lists)
  {
    if i < |lists| - 1 {
      ConcatHasAll(lists[..|lists| - 1], i, id);
    }
  }

  /** Stopping pipes, filling them, and making new ones. */
  lemma FactoryStepKeeps(s: State, e: Event)
    requires Inv(s) && (e.Push? || e.GetPipe? || e.StopPipe? || e.Erase? || e.AddInput?)
    ensures Inv(Step(s, e))
  {
    FactoryStepReach(s, e);
    ReachKeepsInv(s, Step(s, e));
  }

  lemma FactoryStepReach(s: State, e: Event)
    requires FactoryFits(s) && (e.Push? || e.GetPipe? || e.StopPipe? || e.Erase? || e.AddInput?)
    ensures FactoryFits(Step(s, e)) && KeepsReach(s, Step(s, e))
  {
    match e
    case GetPipe(id) => WithPipeReach(s, id);
    case AddInput(i, id) => AddInputReach(s, i, id);
    case Erase(id) => EraseReach(s, id);
    case _ => PipeReach(s, e);
  }

  lemma ReachKeepsInv(s: State, t: State)
    requires Inv(s) && FactoryFits(t) && KeepsReach(s, t) && t.listeners == s.listeners && t.shutdown == s.shutdown
    ensures Inv(t)
  {
    AllReachKept(s, t);
  }

  lemma PipeReach(s: State, e: Event)
    requires FactoryFits(s) && (e.Push? || e.StopPipe?)
    ensures FactoryFits(Step(s, e)) && KeepsReach(s, Step(s, e))
  {
  }

  lemma EraseReach(s: State, id: PipeId)
    requires FactoryFits(s)
    ensures FactoryFits(Step(s, Erase(id))) && KeepsReach(s, Step(s, Erase(id)))
  {
  }

  lemma WithPipeReach(s: State, id: PipeId)
    requires FactoryFits(s)
    ensures FactoryFits(WithPipe(s, id)) && KeepsReach(s, WithPipe(s, id))
  {
  }

  lemma AddInputReach(s: State, i: nat, id: PipeId)
    requires FactoryFits(s)
    ensures FactoryFits(Step(s, AddInput(i, id))) && KeepsReach(s, Step(s, AddInput(i, id)))
  {
    WithPipeReach(s, id);
    var t := WithPipe(s, id);
    assert t.pipesIn == s.pipesIn;
  }

  lemma ControlStepKeeps(s: State, e: Event)
    requires Inv(s) && (e.StartThreads? || e.CallStop? || e.RemoveAllPipes?)
    ensures Inv(Step(s, e))
  {
    var t := Step(s, e);
    forall i | 0 <= i < |t.listeners| ensures ListenerOk(t, i, t.listeners[i]) {
      if e.CallStop? {
        assert ListenerOk(s, i, s.listeners[i]);
      }
    }
  }

  lemma HeldPending(s: State, i: nat, l: Listener)
    requires ListenerOk(s, i, l)
    ensures forall p :: p in HeldBy(l) ==> StoppedPipe(s, p) || (p < |s.pipes| && s.pipes[p].id in Concat(s.pipesIn))
  {
    forall p | p in HeldBy(l) && !StoppedPipe(s, p) ensures p < |s.pipes| && s.pipes[p].id in Concat(s.pipesIn) {
      assert Reachable(s, i, p);
      ConcatHasAll(s.pipesIn, i, s.pipes[p].id);
    }
  }

  lemma StopperStepKeepsOne(s: State, i: nat, l: Listener)
    requires FactoryFits(s) && StopperOk(s) && ListenerOk(s, i, l)
    requires s.stopper.Joining? ==> i < |s.listeners| && s.listeners[i] == l
    requires !(s.stopper.Joining? && s.stopper.port >= |s.listeners|)
    ensures ListenerOk(Step(s, StopperStep), i, l)
  {
    var t := Step(s, StopperStep);
    forall p | p in HeldBy(l) ensures Reachable(t, i, p) {
      assert Reachable(s, i, p);
    }
    HeldPending(s, i, l);
  }

  lemma StopperStepKeeps(s: State)
    requires Inv(s)
    ensures Inv(Step(s, StopperStep))
  {
    var t := Step(s, StopperStep);
    if s.mutex.ListenerOwns? {
      assert ListenerOk(s, s.mutex.port, s.listeners[s.mutex.port]);
    }
    forall i | 0 <= i < |t.listeners| ensures ListenerOk(t, i, t.listeners[i]) {
      StopperStepKeepsOne(s, i, s.listeners[i]);
    }
  }

  /** Every pipe is where it was, and just as stopped. */
  ghost predicate SameReach(s: State, t: State) {
    && t.factory == s.factory && t.pipesIn == s.pipesIn && t.stopper == s.stopper && |t.pipes| == |s.pipes|
    && (forall p :: 0 <= p < |s.pipes| ==> t.pipes[p].id == s.pipes[p].id && t.pipes[p].started == s.pipes[p].started)
  }

  lemma ListenerStepSameReach(s: State, i: nat)
    ensures SameReach(s, Step(s, ListenerStep(i))) && Step(s, ListenerStep(i)).shutdown == s.shutdown
  {
  }

  /** What a listener holds stays in reach, and covered by the notifies. */
  lemma HeldKept(s: State, t: State, i: nat, l: Listener, l': Listener)
    requires SameReach(s, t) && HeldReachable(s, i, l) && NotifyCovers(s, l)
    requires HeldBy(l') == HeldBy(l) && (InPass(l') && s.stopper.Joining? ==> InPass(l))
    ensures HeldReachable(t, i, l') && NotifyCovers(t, l')
  {
    forall p | p in HeldBy(l')
      ensures Reachable(t, i, p) && (StoppedPipe(s, p) <==> StoppedPipe(t, p)) && (Pending(s, p) <==> Pending(t, p))
    {
      assert Reachable(s, i, p);
    }
  }

  /** The other listeners do not depend on the one that steps. */
  lemma OthersKept(s: State, i: nat, j: nat, l: Listener)
    requires i < |s.listeners| && j != i && ListenerOk(s, i, s.listeners[i]) && ListenerOk(s, j, l)
    ensures ListenerOk(Step(s, ListenerStep(i)), j, l)
  {
    ListenerStepSameReach(s, i);
    HeldKept(s, Step(s, ListenerStep(i)), j, l, l);
    OthersControl(s, i, j, l);
  }

  lemma OthersControl(s: State, i: nat, j: nat, l: Listener)
    requires i < |s.listeners| && j != i && ControlFits(s, i, s.listeners[i]) && ControlFits(s, j, l)
    ensures ControlFits(Step(s, ListenerStep(i)), j, l)
  {
  }

  ghost predicate OwnStepFits(s: State, i: nat) {
    var t := Step(s, ListenerStep(i));
    i < |t.listeners| && FactoryFits(t) && StopperOk(t) && ListenerOk(t, i, t.listeners[i])
  }

  lemma LookingStepKeeps(s: State, i: nat)
    requires i < |s.listeners| && FactoryFits(s) && StopperOk(s) && ListenerOk(s, i, s.listeners[i])
    requires s.listeners[i].Looking?
    ensures OwnStepFits(s, i)
  {
    var l := s.listeners[i];
    var t := Step(s, ListenerStep(i));
    assert !s.stopper.Finding? && !s.stopper.Notifying?;
    forall p | p in HeldBy(t.listeners[i]) ensures Reachable(t, i, p) {
      if p in l.held {
        assert Reachable(s, i, p);
      } else {
        assert l.todo != [] && l.todo[0] in s.pipesIn[i];
      }
    }
  }

  lemma WaitingStepKeeps(s: State, i: nat)
    requires i < |s.listeners| && FactoryFits(s) && StopperOk(s) && ListenerOk(s, i, s.listeners[i])
    requires s.listeners[i].Waiting?
    ensures OwnStepFits(s, i)
  {
    var l := s.listeners[i];
    var t := Step(s, ListenerStep(i));
    ListenerStepSameReach(s, i);
    HeldKept(s, t, i, l, t.listeners[i]);
    WaitingControl(s, i);
  }

  lemma WaitingControl(s: State, i: nat)
    requires i < |s.listeners| && FactoryFits(s) && StopperOk(s) && ControlFits(s, i, s.listeners[i])
    requires s.listeners[i].Waiting?
    ensures var t := Step(s, ListenerStep(i));
            FactoryFits(t) && StopperOk(t) && i < |t.listeners| && ControlFits(t, i, t.listeners[i])
  {
  }

  lemma OtherStepKeeps(s: State, i: nat)
    requires i < |s.listeners| && FactoryFits(s) && StopperOk(s) && ListenerOk(s, i, s.listeners[i])
    requires !s.listeners[i].Looking? && !s.listeners[i].Waiting?
    ensures OwnStepFits(s, i)
  {
    var l := s.listeners[i];
    var t := Step(s, ListenerStep(i));
    assert !s.shutdown ==> s.stopper.Idle?;
    forall p | p in HeldBy(t.listeners[i])
      ensures Reachable(t, i, p) && (StoppedPipe(s, p) || Pending(s, p) ==> StoppedPipe(t, p) || Pending(t, p))
    {
      assert Reachable(s, i, p);
    }
  }

  lemma ListenerStepKeeps(s: State, i: nat)
    requires Inv(s)
    ensures Inv(Step(s, ListenerStep(i)))
  {
    if i < |s.listeners| {
      var t := Step(s, ListenerStep(i));
      if s.listeners[i].Looking? {
        LookingStepKeeps(s, i);
      } else if s.listeners[i].Waiting? {
        WaitingStepKeeps(s, i);
      } else {
        OtherStepKeeps(s, i);
      }
      forall j | 0 <= j < |t.listeners| ensures ListenerOk(t, j, t.listeners[j]) {
        if j != i {
          OthersKept(s, i, j, s.listeners[j]);
        }
      }
    }
  }

  lemma StepKeeps(s: State, e: Event)
    requires Inv(s)
    ensures Inv(Step(s, e))
  {
    match e
    case StopperStep => StopperStepKeeps(s);
    case ListenerStep(i) => ListenerStepKeeps(s, i);
    case StartThreads => ControlStepKeeps(s, e);
    case CallStop => ControlStepKeeps(s, e);
    case RemoveAllPipes => ControlStepKeeps(s, e);
    case _ => FactoryStepKeeps(s, e);
  }

  lemma {:induction false} RunKeeps(inputs: nat, events: seq<Event>)
    ensures Inv(Exec(Init(inputs), events))
  {
    if events != [] {
      RunKeeps(inputs, events[..|events| - 1]);
      StepKeeps(Exec(Init(inputs), events[..|events| - 1]), events[|events| - 1]);
    }
  }

  // ---------- stop_threads returns ----------

  /** What a listener can still do once the flag is set: finish the pass it is in, and leave. */
  function ListenerRank(pipesIn: seq<seq<PipeId>>, i: nat, l: Listener): nat {
    match l
    case Starting => if i < |pipesIn| then |pipesIn[i]| + 3 else 3
    case Looking(todo, _) => |todo| + 2
    case AtTop(_) => 1
    case Waiting(held, k) => if k <= |held| then 2 * (|held| - k) + 2 else 2
    case Handling(held, k) => if k <= |held| then 2 * (|held| - k) + 1 else 1
    case Left => 0
  }

  function StopperRank(s: State): nat {
    match s.stopper
    case Idle => 0
    case Flagged => 2 * |Concat(s.pipesIn)| + |s.listeners| + 3
    case Finding(todo) => 2 * |todo| + |s.listeners| + 2
    case Notifying(_, todo) => 2 * |todo| + |s.listeners| + 3
    case Joining(i) => if i <= |s.listeners| then |s.listeners| - i + 1 else 1
  }

  function ListenersRank(pipesIn: seq<seq<PipeId>>, listeners: seq<Listener>): nat {
    if listeners == [] then 0
    else
      var last := |listeners| - 1;
      ListenersRank(pipesIn, listeners[..last]) + ListenerRank(pipesIn, last, listeners[last])
  }

  function Rank(s: State): nat {
    StopperRank(s) + ListenersRank(s.pipesIn, s.listeners)
  }

  lemma {:induction false} RankUpdate(pipesIn: seq<seq<PipeId>>, listeners: seq<Listener>, i: nat, l: Listener)
    requires i < |listeners|
    ensures ListenersRank(pipesIn, listeners[i := l]) + ListenerRank(pipesIn, i, listeners[i])
            == ListenersRank(pipesIn, listeners) + ListenerRank(pipesIn, i, l)
  {
    var last := |listeners| - 1;
    if i < last {
      RankUpdate(pipesIn, listeners[..last], i, l);
      assert listeners[i := l][..last] == listeners[..last][i := l];
    } else {
      assert listeners[i := l][..last] == listeners[..last];
    }
  }

  lemma {:induction false} RankGrows(pipesIn: seq<seq<PipeId>>, listeners: seq<Listener>, i: nat, id: PipeId)
    requires i < |pipesIn|
    ensures ListenersRank(pipesIn[i := pipesIn[i] + [id]], listeners)
            <= ListenersRank(pipesIn, listeners) + if i < |listeners| then 1 else 0
  {
    if listeners != [] {
      RankGrows(pipesIn, listeners[..|listeners| - 1], i, id);
    }
  }

  lemma {:induction false} ConcatGrows(lists: seq<seq<PipeId>>, i: nat, id: PipeId)
    requires i < |lists|
    ensures |Concat(lists[i := lists[i] + [id]])| == |Concat(lists)| + 1
  {
    var last := |lists| - 1;
    if i < last {
      ConcatGrows(lists[..last], i, id);
      assert lists[i := lists[i] + [id]][..last] == lists[..last][i := lists[i] + [id]];
    } else {
      assert lists[i := lists[i] + [id]][..last] == lists[..last];
    }
  }

  predicate IsOwnStep(e: Event) {
    e.StopperStep? || e.ListenerStep?
  }

  /** While stop_threads runs, every step of the stopper or of a listener brings the end nearer. */
  lemma OwnStepsDescend(s: State, e: Event)
    requires Inv(s) && !s.stopper.Idle? && IsOwnStep(e) && Step(s, e) != s
    ensures Rank(Step(s, e)) < Rank(s)
  {
    match e
    case ListenerStep(i) =>
      assert ListenerOk(s, i, s.listeners[i]);
      ListenerDescends(s, i);
      RankUpdate(s.pipesIn, s.listeners, i, Step(s, e).listeners[i]);
    case _ =>
  }

  lemma ListenerDescends(s: State, i: nat)
    requires i < |s.listeners| && s.shutdown && ControlFits(s, i, s.listeners[i]) && Step(s, ListenerStep(i)) != s
    ensures var t := Step(s, ListenerStep(i));
            && t.listeners == s.listeners[i := t.listeners[i]]
            && t.stopper == s.stopper && t.pipesIn == s.pipesIn
            && ListenerRank(s.pipesIn, i, t.listeners[i]) < ListenerRank(s.pipesIn, i, s.listeners[i])
  {
  }

  /** Nothing else brings it further away, except a new input pipe. */
  lemma OtherStepsDoNotClimb(s: State, e: Event)
    requires Inv(s) && !s.stopper.Idle? && !IsOwnStep(e)
    ensures Rank(Step(s, e)) <= Rank(s) + if e.AddInput? then 3 else 0
  {
    match e
    case AddInput(i, id) =>
      if i < |s.pipesIn| {
        RankGrows(s.pipesIn, s.listeners, i, id);
        ConcatGrows(s.pipesIn, i, id);
      }
    case _ =>
  }

  function OwnSteps(s: State, events: seq<Event>): nat {
    if events == [] then 0
    else
      var front, last := events[..|events| - 1], events[|events| - 1];
      OwnSteps(s, front) + if IsOwnStep(last) && Step(Exec(s, front), last) != Exec(s, front) then 1 else 0
  }

  function NewInputs(events: seq<Event>): nat {
    if events == [] then 0
    else NewInputs(events[..|events| - 1]) + if events[|events| - 1].AddInput? then 1 else 0
  }

  ghost predicate StoppingThroughout(s: State, events: seq<Event>) {
    forall n :: 0 <= n <= |events| ==> !Exec(s, events[..n]).stopper.Idle?
  }

  /** In any run during which stop_threads has not returned, it and the listeners take at most this many steps,
      whatever the rest of the program does. */
  lemma {:induction false} StopIsBounded(s: State, events: seq<Event>)
    requires Inv(s) && StoppingThroughout(s, events)
    ensures Inv(Exec(s, events))
    ensures OwnSteps(s, events) + Rank(Exec(s, events)) <= Rank(s) + 3 * NewInputs(events)
  {
    if events != [] {
      var front, last := events[..|events| - 1], events[|events| - 1];
      forall n | 0 <= n <= |front| ensures !Exec(s, front[..n]).stopper.Idle? {
        assert front[..n] == events[..n];
      }
      StopIsBounded(s, front);
      var t := Exec(s, front);
      assert events[..|events| - 1] == front;
      assert !t.stopper.Idle?;
      StepKeeps(t, last);
      if IsOwnStep(last) {
        if Step(t, last) != t {
          OwnStepsDescend(t, last);
        }
      } else {
        OtherStepsDoNotClimb(t, last);
      }
    }
  }

  /** Once every pipe has been notified, a listener that is neither gone nor waiting for the mutex can go on. */
  lemma ListenerCanGoOn(s: State, i: nat)
    requires Inv(s) && s.stopper.Joining? && i < |s.listeners|
    requires !s.listeners[i].Left? && !(s.listeners[i].Starting? && s.mutex.ListenerOwns?)
    ensures Step(s, ListenerStep(i)) != s
  {
    var l := s.listeners[i];
    assert ListenerOk(s, i, l);
    var t := Step(s, ListenerStep(i));
    match l
    case Looking(todo, held) => assert t.listeners[i] != l;
    case Waiting(held, k) =>
      if k < |held| {
        assert held[k] in HeldBy(l);
        assert StoppedPipe(s, held[k]);
      }
      assert t.listeners[i] != l;
    case Starting => assert t.listeners[i] != l;
    case AtTop(_) => assert t.listeners[i] != l;
    case Handling(_, _) => assert t.listeners[i] != l;
    case Left => assert false;
  }

  /** Until stop_threads returns, it or some listener can take a step. */
  lemma NeverStuck(s: State)
    requires Inv(s) && !s.stopper.Idle?
    ensures exists e :: IsOwnStep(e) && Step(s, e) != s
  {
    var e: Event;
    if s.mutex.ListenerOwns? {
      var i := s.mutex.port;
      e := ListenerStep(i);
      assert ListenerOk(s, i, s.listeners[i]);
      assert Step(s, e).listeners[i] != s.listeners[i];
    } else if s.stopper.Joining? && s.stopper.port < |s.listeners| && !s.listeners[s.stopper.port].Left? {
      e := ListenerStep(s.stopper.port);
      ListenerCanGoOn(s, s.stopper.port);
    } else {
      e := StopperStep;
      assert Step(s, e).stopper != s.stopper;
    }
    assert IsOwnStep(e) && Step(s, e) != s;
  }

  /** In every reachable state after a stop_threads that returned, before threads are started again, no listener is
      left; and while it joins, no listener is in a pass over a pipe that has not been stopped. */
  lemma StoppedMeansGone(inputs: nat, events: seq<Event>)
    ensures var s := Exec(Init(inputs), events);
            && (s.stopper.Idle? && s.shutdown ==> s.listeners == [])
            && (s.stopper.Joining? ==>
                  forall i, p | 0 <= i < |s.listeners| && InPass(s.listeners[i]) && p in HeldBy(s.listeners[i]) ::
                    StoppedPipe(s, p))
  {
    RunKeeps(inputs, events);
    var s := Exec(Init(inputs), events);
    forall i, p | s.stopper.Joining? && 0 <= i < |s.listeners| && InPass(s.listeners[i]) && p in HeldBy(s.listeners[i])
      ensures StoppedPipe(s, p)
    {
      assert ListenerOk(s, i, s.listeners[i]);
    }
  }

  /** In every reachable state, every pipe a live listener holds is stopped, or is what the factory hands out for its
      id, and that id is one of the port's. */
  lemma HeldPipesStayInReach(inputs: nat, events: seq<Event>, i: nat, p: nat)
    requires var s := Exec(Init(inputs), events); i < |s.listeners| && p in HeldBy(s.listeners[i])
    ensures Reachable(Exec(Init(inputs), events), i, p)
  {
    RunKeeps(inputs, events);
    var s := Exec(Init(inputs), events);
    assert ListenerOk(s, i, s.listeners[i]);
  }

  lemma StoppedStays(s: State, e: Event, p: nat)
    requires StoppedPipe(s, p)
    ensures StoppedPipe(Step(s, e), p)
  {
    match e
    case ListenerStep(i) => ListenerStepSameReach(s, i);
    case _ =>
  }

  /** A pipe that is stopped stays stopped: after a stop, threads started again find their pipes dead. */
  lemma {:induction false} StoppedForGood(s: State, events: seq<Event>, p: nat)
    requires StoppedPipe(s, p)
    ensures StoppedPipe(Exec(s, events), p)
  {
    if events != [] {
      StoppedForGood(s, events[..|events| - 1], p);
      StoppedStays(Exec(s, events[..|events| - 1]), events[|events| - 1], p);
    }
  }

  // ---------- what the calls do ----------

  /** start_threads starts one listener per input port, with the flag cleared; stop_threads sets it first. Between the
      two remove_all_pipes takes every port's pipes away. */
  lemma ThreadsStart(s: State)
    requires s.stopper.Idle?
    ensures s.listeners == [] ==>
              var t := Step(s, StartThreads);
              !t.shutdown && |t.listeners| == |s.pipesIn| && (forall l :: l in t.listeners ==> l.Starting?)
    ensures Step(s, CallStop) == s.(shutdown := true, stopper := Flagged)
    ensures s.listeners == [] ==>
              var t := Step(s, RemoveAllPipes);
              && t == s.(pipesIn := t.pipesIn) && |t.pipesIn| == |s.pipesIn|
              && (forall ids :: ids in t.pipesIn ==> ids == [])
  {
  }

  /** get_pipe hands out the registered pipe of the id, or registers a fresh running one; an input is added with its
      pipe, once. */
  lemma InputIsAdded(s: State, i: nat, id: PipeId)
    ensures var t := Step(s, GetPipe(id));
            if id in s.factory then t == s
            else t == s.(pipes := s.pipes + [PipeObject(id, true, 0)], factory := s.factory[id := |s.pipes|])
    ensures s.mutex.Free? && i < |s.pipesIn| ==>
              var t := Step(s, AddInput(i, id));
              && t.pipes == Step(s, GetPipe(id)).pipes && t.factory == Step(s, GetPipe(id)).factory
              && t.pipesIn == s.pipesIn[i := if id in s.pipesIn[i] then s.pipesIn[i] else s.pipesIn[i] + [id]]
    ensures id in s.factory && s.factory[id] < |s.pipes| && !s.pipes[s.factory[id]].started ==>
              Step(s, Erase(id)) == s.(factory := s.factory - {id})
  {
    if s.mutex.Free? && i < |s.pipesIn| && id in s.pipesIn[i] {
      assert s.pipesIn[i := s.pipesIn[i]] == s.pipesIn;
    }
  }

  /** A push adds a message, a stop clears the flag of the pipe, and neither does anything else. */
  lemma PipeIsTouched(s: State, p: nat)
    requires p < |s.pipes|
    ensures Step(s, Push(p)).pipes
            == s.pipes[p := PipeObject(s.pipes[p].id, s.pipes[p].started, s.pipes[p].backlog + 1)]
    ensures Step(s, StopPipe(p)).pipes == s.pipes[p := PipeObject(s.pipes[p].id, false, s.pipes[p].backlog)]
    ensures s.stopper.Notifying? && s.stopper.pipe == p ==>
              Step(s, StopperStep) == Step(s, StopPipe(p)).(stopper := Finding(s.stopper.todo))
  {
  }

  /** A listener handles a message that is there, leaves an empty stopped pipe and waits at an empty running one. */
  lemma PassGoesOn(s: State, i: nat, held: seq<nat>, k: nat)
    requires i < |s.listeners| && s.listeners[i] == Waiting(held, k) && k < |held| && held[k] < |s.pipes|
    ensures var pipe := s.pipes[held[k]];
            var t := Step(s, ListenerStep(i));
            if pipe.backlog > 0 then
              && t.pipes == s.pipes[held[k] := PipeObject(pipe.id, pipe.started, pipe.backlog - 1)]
              && t.listeners == s.listeners[i := Handling(held, k)]
              && Step(t, ListenerStep(i)).listeners == s.listeners[i := Waiting(held, k + 1)]
            else if pipe.started then t == s
            else t == s.(listeners := s.listeners[i := Waiting(held, k + 1)])
  {
    var t := Step(s, ListenerStep(i));
    if s.pipes[held[k]].backlog > 0 {
      assert t.listeners[i := Waiting(held, k + 1)] == s.listeners[i := Waiting(held, k + 1)];
    }
  }

  /** It looks every id of its port up in order, and passes over the pipes it found until the flag is set. */
  lemma PassBegins(s: State, i: nat, held: seq<nat>, todo: seq<PipeId>)
    requires i < |s.listeners|
    ensures s.listeners[i] == Starting && s.mutex.Free? && i < |s.pipesIn| ==>
              Step(s, ListenerStep(i)).listeners[i] == Looking(s.pipesIn[i], [])
    ensures s.listeners[i] == Looking(todo, held) && todo != [] ==>
              Step(s, ListenerStep(i)).listeners[i]
              == Looking(todo[1..], if todo[0] in s.factory then held + [s.factory[todo[0]]] else held)
    ensures s.listeners[i] == Looking([], held) ==>
              Step(s, ListenerStep(i)).listeners[i] == if held == [] then Left else AtTop(held)
    ensures s.listeners[i] == AtTop(held) ==>
              Step(s, ListenerStep(i)).listeners[i] == if s.shutdown then Left else Waiting(held, 0)
    ensures s.listeners[i] == Waiting(held, |held|) ==> Step(s, ListenerStep(i)).listeners[i] == AtTop(held)
  {
  }
}
