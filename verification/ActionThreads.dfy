/** The action manager between threads, sdk/fins/action/action_manager.cpp: creators, the worker, and whoever finishes
    a session, interleaved between their critical sections. A goal callback only hands the session on; finishing it
    comes later, from any thread. */
module ActionThreads {
  import opened ActionSession
  import opened ActionManager

  /** A session made by the manager, the results committed to it, and those its commander has been told. */
  datatype Session = Session(name: Name, state: ActionState, commits: seq<ActionState>, told: seq<ActionState>)

  /** A committed result whose callbacks are still to be called: result_callback, then on_complete. */
  datatype Owed = Owed(session: nat, result: ActionState, told: bool)

  datatype Task = Task(name: Name, createdFor: nat)

  /** `unqueued` are goals between the two critical sections of create_action_session; `held` is the goal the worker
      took; `given` lists each goal handed to an actor and the session it was handed with. */
  datatype State = State(
    tables: Tables<nat>, sessions: seq<Session>, unqueued: seq<Task>, queue: seq<Task>, held: seq<Task>,
    owed: seq<Owed>, queued: seq<Task>, taken: seq<Task>, given: seq<(Task, nat)>)

  datatype Event =
    | RegisterCommander(name: Name, types: TypeIds)
    | RegisterActor(name: Name)
    | Create(name: Name, types: TypeIds)
    | PushGoal(i: nat)
    | CancelAction(name: Name)
    | SessionCall(session: nat, call: Call)
    | Tell(i: nat)
    | Complete(i: nat)
    | Take
    | Dispatch

  function Init(): State {
    State(Tables(map[], map[], map[]), [], [], [], [], [], [], [], [])
  }

  function Without<T>(s: seq<T>, i: nat): (r: seq<T>)
    requires i < |s|
    ensures |r| == |s| - 1
  {
    s[..i] + s[i + 1..]
  }

  /** An event that is not possible changes nothing. */
  function Step(s: State, e: Event): State {
    match e
    case RegisterCommander(name, types) =>
      s.(tables := s.tables.(commanders := s.tables.commanders[name := types]))
    case RegisterActor(name) => s.(tables := s.tables.(actors := s.tables.actors[name := false]))
    case Create(name, types) =>
      if Refused(s.tables, name, types).Some? then s
      else s.(tables := s.tables.(active := s.tables.active[name := |s.sessions|]),
              sessions := s.sessions + [Session(name, Accepted, [], [])],
              unqueued := s.unqueued + [Task(name, |s.sessions|)])
    case PushGoal(i) =>
      if i < |s.unqueued|
      then s.(unqueued := Without(s.unqueued, i), queue := s.queue + [s.unqueued[i]],
              queued := s.queued + [s.unqueued[i]])
      else s
    case CancelAction(name) =>
      if name in s.tables.active then CallSession(s, s.tables.active[name], Cancel) else s
    case SessionCall(k, call) => CallSession(s, k, call)
    case Tell(i) =>
      if i < |s.owed| && !s.owed[i].told && s.owed[i].session < |s.sessions| then
        var k := s.owed[i].session;
        s.(owed := s.owed[i := s.owed[i].(told := true)],
           sessions := s.sessions[k := s.sessions[k].(told := s.sessions[k].told + [s.owed[i].result])])
      else s
    case Complete(i) =>
      if i < |s.owed| && s.owed[i].told && s.owed[i].session < |s.sessions|
      then s.(owed := Without(s.owed, i), tables := Completed(s.tables, s.sessions[s.owed[i].session].name))
      else s
    case Take =>
      if s.held == [] && s.queue != []
      then s.(held := [s.queue[0]], taken := s.taken + [s.queue[0]], queue := s.queue[1..]) else s
    case Dispatch =>
      if s.held == [] then s
      else if !CanDispatch(s.tables, s.held[0].name) then s.(held := [])
      else
        var name := s.held[0].name;
        s.(held := [], tables := s.tables.(actors := s.tables.actors[name := true]),
           given := s.given + [(s.held[0], s.tables.active[name])])
  }

  /** A session method, up to its callbacks; the manager's sessions are never set to Executing. */
  function CallSession(s: State, k: nat, call: Call): State {
    if k < |s.sessions| then
      var (state, due) := Next(true, s.sessions[k].state, call);
      s.(sessions := s.sessions[k := s.sessions[k].(state := state, commits := s.sessions[k].commits + due)],
         owed := s.owed + Due(k, due))
    else s
  }

  function Due(k: nat, due: seq<ActionState>): seq<Owed> {
    if due == [] then [] else [Owed(k, due[0], false)]
  }

  function Exec(s: State, events: seq<Event>): State {
    if events == [] then s else Step(Exec(s, events[..|events| - 1]), events[|events| - 1])
  }

  // ---------- the invariant ----------

  ghost predicate TablesFit(s: State) {
    && (forall name :: name in s.tables.active ==>
          s.tables.active[name] < |s.sessions| && s.sessions[s.tables.active[name]].name == name)
    && (forall name :: MarkedExecuting(s.tables, name) ==> name in s.tables.active)
  }

  function Times(results: seq<ActionState>, r: ActionState): nat {
    if results == [] then 0 else Times(results[..|results| - 1], r) + if results[|results| - 1] == r then 1 else 0
  }

  /** How often the result of a session is owed and not yet told. */
  function Untold(owed: seq<Owed>, k: nat, r: ActionState): nat {
    if owed == [] then 0
    else
      var last := owed[|owed| - 1];
      Untold(owed[..|owed| - 1], k, r) + if last.session == k && last.result == r && !last.told then 1 else 0
  }

  ghost predicate SessionFits(s: State, k: nat)
    requires k < |s.sessions|
  {
    && ResultsFit(s.sessions[k].state, s.sessions[k].commits)
    && !s.sessions[k].state.Executing?
    && Accounted(s.sessions[k], s.owed, k)
  }

  /** Every result is told as often as it was committed, except where that is still owed. */
  ghost predicate Accounted(session: Session, owed: seq<Owed>, k: nat) {
    forall r :: Times(session.commits, r) == Times(session.told, r) + Untold(owed, k, r)
  }

  ghost predicate Inv(s: State) {
    && TablesFit(s)
    && (forall k :: 0 <= k < |s.sessions| ==> SessionFits(s, k))
    && (forall i :: 0 <= i < |s.owed| ==> s.owed[i].session < |s.sessions|)
    && |s.held| <= 1 && s.queued == s.taken + s.queue
    && (s.held != [] ==> s.taken != [] && s.held[0] == s.taken[|s.taken| - 1])
  }

  lemma UntoldAppend(owed: seq<Owed>, o: Owed, k: nat, r: ActionState)
    ensures Untold(owed + [o], k, r) == Untold(owed, k, r) + if o.session == k && o.result == r && !o.told then 1 else 0
  {
    assert (owed + [o])[..|owed|] == owed;
  }

  lemma {:induction false} UntoldUpdate(owed: seq<Owed>, i: nat, k: nat, r: ActionState)
    requires i < |owed| && !owed[i].told
    ensures Untold(owed[i := owed[i].(told := true)], k, r)
            == Untold(owed, k, r) - if owed[i].session == k && owed[i].result == r then 1 else 0
  {
    var last := |owed| - 1;
    var owed' := owed[i := owed[i].(told := true)];
    if i < last {
      UntoldUpdate(owed[..last], i, k, r);
      assert owed'[..last] == owed[..last][i := owed[i].(told := true)];
    } else {
      assert owed'[..last] == owed[..last];
    }
  }

  lemma {:induction false} UntoldWithout(owed: seq<Owed>, i: nat, k: nat, r: ActionState)
    requires i < |owed| && owed[i].told
    ensures Untold(Without(owed, i), k, r) == Untold(owed, k, r)
  {
    var last := |owed| - 1;
    if i < last {
      UntoldWithout(owed[..last], i, k, r);
      assert Without(owed, i)[..last - 1] == Without(owed[..last], i);
    } else {
      assert Without(owed, i) == owed[..last];
    }
  }

  lemma {:induction false} UntoldNone(owed: seq<Owed>, k: nat, r: ActionState)
    requires forall i :: 0 <= i < |owed| ==> owed[i].session != k
    ensures Untold(owed, k, r) == 0
  {
    if owed != [] {
      UntoldNone(owed[..|owed| - 1], k, r);
    }
  }

  lemma DueAppends(s: State, k: nat, due: seq<ActionState>, j: nat, r: ActionState)
    requires |due| <= 1
    ensures Untold(s.owed + Due(k, due), j, r) == Untold(s.owed, j, r) + if k == j && due == [r] then 1 else 0
  {
    if due == [] {
      assert s.owed + [] == s.owed;
    } else {
      UntoldAppend(s.owed, Owed(k, due[0], false), j, r);
      assert due == [due[0]];
    }
  }

  lemma DueCommits(commits: seq<ActionState>, due: seq<ActionState>, r: ActionState)
    requires |due| <= 1
    ensures Times(commits + due, r) == Times(commits, r) + if due == [r] then 1 else 0
  {
    if due == [] {
      assert commits + [] == commits;
    } else {
      assert due == [due[0]];
    }
  }

  lemma CallAccounted(s: State, k: nat, call: Call, j: nat)
    requires k < |s.sessions| && j < |s.sessions| && Accounted(s.sessions[j], s.owed, j)
    ensures Accounted(CallSession(s, k, call).sessions[j], CallSession(s, k, call).owed, j)
  {
    var t := CallSession(s, k, call);
    var due := Next(true, s.sessions[k].state, call).1;
    assert t.owed == s.owed + Due(k, due);
    forall r ensures Times(t.sessions[j].commits, r) == Times(t.sessions[j].told, r) + Untold(t.owed, j, r) {
      DueAppends(s, k, due, j, r);
      DueCommits(s.sessions[k].commits, due, r);
    }
  }

  lemma CallFits(s: State, k: nat, call: Call, j: nat)
    requires k < |s.sessions| && j < |s.sessions| && SessionFits(s, j)
    ensures SessionFits(CallSession(s, k, call), j)
  {
    CallAccounted(s, k, call, j);
    if k == j {
      NextFits(true, s.sessions[k].state, s.sessions[k].commits, call);
    }
  }

  lemma CallKeeps(s: State, k: nat, call: Call)
    requires Inv(s)
    ensures Inv(CallSession(s, k, call))
  {
    if k < |s.sessions| {
      var t := CallSession(s, k, call);
      forall j | 0 <= j < |t.sessions| ensures SessionFits(t, j) {
        CallFits(s, k, call, j);
      }
    }
  }

  lemma TellKeeps(s: State, i: nat)
    requires Inv(s)
    ensures Inv(Step(s, Tell(i)))
  {
    if i < |s.owed| && !s.owed[i].told {
      var t := Step(s, Tell(i));
      var k := s.owed[i].session;
      forall j | 0 <= j < |t.sessions| ensures SessionFits(t, j) {
        assert SessionFits(s, j);
        forall r ensures Times(t.sessions[j].commits, r) == Times(t.sessions[j].told, r) + Untold(t.owed, j, r) {
          UntoldUpdate(s.owed, i, j, r);
        }
      }
    }
  }

  lemma CompleteKeeps(s: State, i: nat)
    requires Inv(s)
    ensures Inv(Step(s, Complete(i)))
  {
    if i < |s.owed| && s.owed[i].told {
      var t := Step(s, Complete(i));
      forall j | 0 <= j < |t.sessions| ensures SessionFits(t, j) {
        assert SessionFits(s, j);
        forall r ensures Untold(t.owed, j, r) == Untold(s.owed, j, r) {
          UntoldWithout(s.owed, i, j, r);
        }
      }
    }
  }

  lemma CreateKeeps(s: State, name: Name, types: TypeIds)
    requires Inv(s)
    ensures Inv(Step(s, Create(name, types)))
  {
    var t := Step(s, Create(name, types));
    forall j | 0 <= j < |t.sessions| ensures SessionFits(t, j) {
      if j < |s.sessions| {
        assert SessionFits(s, j);
      } else {
        forall r ensures Untold(s.owed, j, r) == 0 {
          UntoldNone(s.owed, j, r);
        }
      }
    }
  }

  /** Steps that change no session and no callback. */
  lemma QueueStepKeeps(s: State, e: Event)
    requires Inv(s)
    requires e.RegisterCommander? || e.RegisterActor? || e.PushGoal? || e.Take? || e.Dispatch?
    ensures Inv(Step(s, e))
  {
    var t := Step(s, e);
    assert t.sessions == s.sessions && t.owed == s.owed;
    forall j | 0 <= j < |t.sessions| ensures SessionFits(t, j) {
      assert SessionFits(s, j);
    }
  }

  lemma StepKeeps(s: State, e: Event)
    requires Inv(s)
    ensures Inv(Step(s, e))
  {
    match e
    case Create(name, types) => CreateKeeps(s, name, types);
    case CancelAction(name) =>
      if name in s.tables.active {
        CallKeeps(s, s.tables.active[name], Cancel);
      }
    case SessionCall(k, call) => CallKeeps(s, k, call);
    case Tell(i) => TellKeeps(s, i);
    case Complete(i) => CompleteKeeps(s, i);
    case _ => QueueStepKeeps(s, e);
  }

  lemma {:induction false} RunKeeps(events: seq<Event>)
    ensures Inv(Exec(Init(), events))
  {
    if events != [] {
      RunKeeps(events[..|events| - 1]);
      StepKeeps(Exec(Init(), events[..|events| - 1]), events[|events| - 1]);
    }
  }

  // ---------- actors and sessions ----------

  /** In every reachable state an actor marked executing has an active session, and it is one for its action. */
  lemma MarkedHasSession(events: seq<Event>, name: Name)
    ensures var s := Exec(Init(), events);
            MarkedExecuting(s.tables, name) ==>
              name in s.tables.active && s.tables.active[name] < |s.sessions|
              && s.sessions[s.tables.active[name]].name == name
  {
    RunKeeps(events);
  }

  ghost predicate MarkedThroughout(s: State, events: seq<Event>, name: Name) {
    forall n :: 0 <= n <= |events| ==> MarkedExecuting(Exec(s, events[..n]).tables, name)
  }

  /** While the mark stays set, the active session is not replaced. */
  lemma {:induction false} MarkKeepsSession(s: State, events: seq<Event>, name: Name)
    requires Inv(s) && MarkedThroughout(s, events, name)
    ensures var t := Exec(s, events);
            && Inv(t) && name in s.tables.active && name in t.tables.active
            && t.tables.active[name] == s.tables.active[name]
  {
    assert MarkedExecuting(Exec(s, events[..0]).tables, name) && events[..0] == [];
    if events != [] {
      var front, last := events[..|events| - 1], events[|events| - 1];
      forall n | 0 <= n <= |front| ensures MarkedExecuting(Exec(s, front[..n]).tables, name) {
        assert front[..n] == events[..n];
      }
      MarkKeepsSession(s, front, name);
      StepKeeps(Exec(s, front), last);
      assert events[..|events|] == events && front[..|front|] == front;
      MarkKeepsActive(Exec(s, front), last, name);
    }
  }

  lemma MarkKeepsActive(s: State, e: Event, name: Name)
    requires Inv(s) && MarkedExecuting(s.tables, name) && MarkedExecuting(Step(s, e).tables, name)
    ensures name in Step(s, e).tables.active && Step(s, e).tables.active[name] == s.tables.active[name]
  {
  }

  /** Every session only goes forward: open, canceling, finished. */
  lemma {:induction false} SessionsGoForward(s: State, events: seq<Event>, k: nat)
    requires k < |s.sessions|
    ensures var t := Exec(s, events);
            && k < |t.sessions| && t.sessions[k].name == s.sessions[k].name
            && Stage(s.sessions[k].state) <= Stage(t.sessions[k].state)
            && s.sessions[k].commits <= t.sessions[k].commits
  {
    if events != [] {
      SessionsGoForward(s, events[..|events| - 1], k);
      SessionForward(Exec(s, events[..|events| - 1]), events[|events| - 1], k);
    }
  }

  lemma SessionForward(s: State, e: Event, k: nat)
    requires k < |s.sessions|
    ensures var t := Step(s, e);
            && k < |t.sessions| && t.sessions[k].name == s.sessions[k].name
            && Stage(s.sessions[k].state) <= Stage(t.sessions[k].state)
            && s.sessions[k].commits <= t.sessions[k].commits
  {
  }

  lemma {:induction false} NeverLater(results: seq<ActionState>)
    requires forall i :: 0 < i < |results| ==> results[i] != Canceled
    ensures Times(results, Canceled) <= 1
  {
    if |results| > 1 {
      NeverLater(results[..|results| - 1]);
    } else if |results| == 1 {
      assert results[..0] == [];
    }
  }

  /** In every reachable state, Canceled was committed to a session at most once and never after another result, and
      its commander is told every result as often as it was committed, except those still owed: so Canceled at most
      once. */
  lemma CanceledOnce(events: seq<Event>, k: nat)
    requires k < |Exec(Init(), events).sessions|
    ensures var s := Exec(Init(), events);
            && (forall i :: 0 < i < |s.sessions[k].commits| ==> s.sessions[k].commits[i] != Canceled)
            && (forall r :: Times(s.sessions[k].told, r) + Untold(s.owed, k, r) == Times(s.sessions[k].commits, r))
            && Times(s.sessions[k].told, Canceled) <= 1
  {
    RunKeeps(events);
    var s := Exec(Init(), events);
    assert SessionFits(s, k);
    NeverLater(s.sessions[k].commits);
  }

  /** In every reachable state the worker has taken a prefix of the queued goals, in order. */
  lemma GoalsInOrder(events: seq<Event>)
    ensures var s := Exec(Init(), events);
            s.taken + s.queue == s.queued && (s.held != [] ==> s.taken != [] && s.held == [s.taken[|s.taken| - 1]])
  {
    RunKeeps(events);
    var s := Exec(Init(), events);
    assert s.held != [] ==> s.held == [s.held[0]];
  }

  // ---------- one goal, from its creation to its end ----------

  lemma ExecMore(s: State, events: seq<Event>, e: Event)
    ensures Exec(s, events + [e]) == Step(Exec(s, events), e)
  {
    assert (events + [e])[..|events + [e]| - 1] == events;
  }

  /** Nothing is under way. */
  predicate Idle(s: State) {
    s.unqueued == [] && s.queue == [] && s.held == [] && s.owed == []
  }

  /** A goal that is created, queued, taken and dispatched is given to the session made for it, and its actor marked. */
  lemma GoalIsGiven(s: State, name: Name, types: TypeIds)
    requires Idle(s) && name in s.tables.commanders && s.tables.commanders[name] == types
    requires name in s.tables.actors && !s.tables.actors[name]
    ensures var k := |s.sessions|;
            var goal := Task(name, k);
            Step(Step(Step(Step(s, Create(name, types)), PushGoal(0)), Take), Dispatch)
            == s.(tables := s.tables.(actors := s.tables.actors[name := true], active := s.tables.active[name := k]),
                  sessions := s.sessions + [Session(name, Accepted, [], [])],
                  queued := s.queued + [goal], taken := s.taken + [goal], given := s.given + [(goal, k)])
  {
    var s1 := Step(s, Create(name, types));
    assert s1.unqueued == [Task(name, |s.sessions|)];
    var s2 := Step(s1, PushGoal(0));
    assert s2.unqueued == [] && s2.queue == [Task(name, |s.sessions|)];
    var s3 := Step(s2, Take);
    assert s3.queue == [] && s3.held == [Task(name, |s.sessions|)];
  }

  /** A session call that commits a result has it told and the completion done: the commander gets the result, the
      session is no longer active, and the actor is free. */
  lemma ResultIsTold(s: State, k: nat, call: Call)
    requires s.owed == [] && k < |s.sessions| && Next(true, s.sessions[k].state, call).1 != []
    ensures var session := s.sessions[k];
            var (state, due) := Next(true, session.state, call);
            var t := Step(Step(Step(s, SessionCall(k, call)), Tell(0)), Complete(0));
            && t.owed == [] && |t.sessions| == |s.sessions|
            && t.sessions[k] == session.(state := state, commits := session.commits + due, told := session.told + due)
            && (forall j :: 0 <= j < |s.sessions| && j != k ==> t.sessions[j] == s.sessions[j])
            && !MarkedExecuting(t.tables, session.name) && session.name !in t.tables.active
            && (forall name :: name != session.name ==>
                  (name in t.tables.active <==> name in s.tables.active)
                  && (MarkedExecuting(t.tables, name) <==> MarkedExecuting(s.tables, name)))
            && t.tables.commanders == s.tables.commanders && t.queue == s.queue
  {
    var (state, due) := Next(true, s.sessions[k].state, call);
    assert due == [due[0]];
    var s1 := Step(s, SessionCall(k, call));
    assert s1.owed == [Owed(k, due[0], false)];
    var s2 := Step(s1, Tell(0));
    assert s2.owed == [Owed(k, due[0], true)];
  }

  /** A registration is in force afterwards, and a cancellation reaches the active session of its action. */
  lemma CallsTakeEffect(s: State, name: Name, types: TypeIds)
    ensures Step(s, RegisterCommander(name, types)).tables.commanders == s.tables.commanders[name := types]
    ensures Step(s, RegisterActor(name)).tables.actors == s.tables.actors[name := false]
    ensures name in s.tables.active && s.tables.active[name] < |s.sessions|
            && Stage(s.sessions[s.tables.active[name]].state) == 0 ==>
              var k := s.tables.active[name];
              Step(s, CancelAction(name)).sessions == s.sessions[k := s.sessions[k].(state := Canceling)]
    ensures name !in s.tables.active ==> Step(s, CancelAction(name)) == s
    ensures s.held != [] && (s.held[0].name !in s.tables.actors || s.held[0].name !in s.tables.active) ==>
              Step(s, Dispatch) == s.(held := [])
  {
    if name in s.tables.active && s.tables.active[name] < |s.sessions| {
      var k := s.tables.active[name];
      assert s.sessions[k].commits + [] == s.sessions[k].commits;
    }
  }
}
