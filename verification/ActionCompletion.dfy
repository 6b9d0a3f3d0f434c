/** Whose session a completion ends: on_complete removes whatever session is active for the action
    (sdk/fins/action/action_manager.cpp:168-176), not the one it is called for. */
module ActionCompletion {
  import opened ActionSession
  import opened ActionManager
  import opened ActionThreads

  predicate IsActive(s: State, k: nat) {
    k < |s.sessions| && s.sessions[k].name in s.tables.active && s.tables.active[s.sessions[k].name] == k
  }

  /** Every completion that is due is due for the active session of its action, and only once. */
  ghost predicate DueToActive(s: State) {
    && (forall i :: 0 <= i < |s.owed| ==> IsActive(s, s.owed[i].session))
    && (forall i, j :: 0 <= i < j < |s.owed| ==> s.owed[i].session != s.owed[j].session)
  }

  predicate OwesNone(s: State, k: nat) {
    forall i :: 0 <= i < |s.owed| ==> s.owed[i].session != k
  }

  predicate OwesNoneFor(s: State, name: Name) {
    forall i :: 0 <= i < |s.owed| && s.owed[i].session < |s.sessions| ==> s.sessions[s.owed[i].session].name != name
  }

  /** The call commits a result, so that callbacks become due. */
  predicate Commits(s: State, k: nat, call: Call) {
    k < |s.sessions| && Next(true, s.sessions[k].state, call).1 != []
  }

  /** A session is created only while no completion is due for its action, and a result is committed only to the active
      session of an action, with no completion due for it. */
  predicate Guarded(s: State, e: Event) {
    match e
    case Create(name, types) => Refused(s.tables, name, types).None? ==> OwesNoneFor(s, name)
    case SessionCall(k, call) => Commits(s, k, call) ==> IsActive(s, k) && OwesNone(s, k)
    case _ => true
  }

  // ---------- one step ----------

  lemma CallKeepsActive(s: State, k: nat, call: Call)
    requires k < |s.sessions|
    ensures forall j :: IsActive(CallSession(s, k, call), j) <==> IsActive(s, j)
  {
  }

  lemma CallIff(s: State, k: nat, call: Call)
    requires DueToActive(s)
    ensures DueToActive(CallSession(s, k, call)) <==> Guarded(s, SessionCall(k, call))
  {
    if k < |s.sessions| {
      var t := CallSession(s, k, call);
      CallKeepsActive(s, k, call);
      if Commits(s, k, call) {
        assert t.owed[|s.owed|].session == k;
        assert forall i :: 0 <= i < |s.owed| ==> t.owed[i] == s.owed[i];
      } else {
        assert t.owed == s.owed;
      }
    }
  }

  lemma CreateIff(s: State, name: Name, types: TypeIds)
    requires Inv(s) && DueToActive(s)
    ensures DueToActive(Step(s, Create(name, types))) <==> Guarded(s, Create(name, types))
  {
    var t := Step(s, Create(name, types));
    if t != s {
      forall j | 0 <= j < |s.sessions|
        ensures IsActive(t, j) <==> IsActive(s, j) && s.sessions[j].name != name
      {
      }
      assert forall i :: 0 <= i < |t.owed| ==> t.owed[i] == s.owed[i];
    }
  }

  /** A completion due for the active session ends that session and leaves the other actions alone. */
  lemma CompleteKeepsActive(s: State, i: nat)
    requires i < |s.owed| && s.owed[i].told && IsActive(s, s.owed[i].session)
    ensures var t := Step(s, Complete(i));
            forall j :: IsActive(t, j) <==> IsActive(s, j) && j != s.owed[i].session
  {
  }

  lemma CompleteKeepsDue(s: State, i: nat)
    requires DueToActive(s)
    ensures DueToActive(Step(s, Complete(i)))
  {
    if i < |s.owed| && s.owed[i].told {
      var t := Step(s, Complete(i));
      CompleteKeepsActive(s, i);
      assert forall n :: 0 <= n < |t.owed| ==> t.owed[n] == s.owed[if n < i then n else n + 1];
    }
  }

  lemma QuietKeepsDue(s: State, e: Event)
    requires DueToActive(s) && !e.Create? && !e.SessionCall? && !e.Complete? && !e.CancelAction?
    ensures DueToActive(Step(s, e))
  {
    var t := Step(s, e);
    assert forall j | IsActive(s, j) :: IsActive(t, j);
    assert forall n :: 0 <= n < |t.owed| ==> t.owed[n].session == s.owed[n].session;
  }

  /** A step keeps every due completion due to the active session, once, if and only if it is guarded. */
  lemma DueToActiveIff(s: State, e: Event)
    requires Inv(s) && DueToActive(s)
    ensures DueToActive(Step(s, e)) <==> Guarded(s, e)
  {
    match e
    case Create(name, types) => CreateIff(s, name, types);
    case SessionCall(k, call) => CallIff(s, k, call);
    case CancelAction(name) =>
      if name in s.tables.active {
        CallIff(s, s.tables.active[name], Cancel);
      }
    case Complete(i) => CompleteKeepsDue(s, i);
    case _ => QuietKeepsDue(s, e);
  }

  // ---------- whole runs ----------

  /** After every prefix of the events. */
  ghost predicate DueToActiveThroughout(events: seq<Event>) {
    DueToActive(Exec(Init(), events)) && (events == [] || DueToActiveThroughout(events[..|events| - 1]))
  }

  ghost predicate GuardedRun(events: seq<Event>) {
    events == []
    || (GuardedRun(events[..|events| - 1])
        && Guarded(Exec(Init(), events[..|events| - 1]), events[|events| - 1]))
  }

  /** Throughout a run every completion is due to its own, active session if and only if every event is guarded. */
  lemma {:induction false} CompletionsAreOwnIff(events: seq<Event>)
    ensures DueToActiveThroughout(events) <==> GuardedRun(events)
  {
    if events != [] {
      var front := events[..|events| - 1];
      CompletionsAreOwnIff(front);
      if DueToActiveThroughout(front) {
        RunKeeps(front);
        DueToActiveIff(Exec(Init(), front), events[|events| - 1]);
      }
    }
  }

  // ---------- careful callers ----------

  /** A caller who waits until an action has no active session before creating one, and never finishes a session a
      second time. */
  ghost predicate Careful(s: State, e: Event) {
    && (e.Create? ==> e.name !in s.tables.active)
    && (e.SessionCall? && e.session < |s.sessions| ==>
          !(Finished(s.sessions[e.session].state) && Overwrites(true, e.call)))
  }

  ghost predicate CarefulRun(events: seq<Event>) {
    events == []
    || (CarefulRun(events[..|events| - 1])
        && Careful(Exec(Init(), events[..|events| - 1]), events[|events| - 1]))
  }

  /** Sessions whose completion is due are finished, and those that are not finished are active. */
  ghost predicate StagesFit(s: State) {
    && (forall i :: 0 <= i < |s.owed| ==>
          s.owed[i].session < |s.sessions| && Finished(s.sessions[s.owed[i].session].state))
    && (forall k :: 0 <= k < |s.sessions| && !Finished(s.sessions[k].state) ==> IsActive(s, k))
  }

  lemma CarefulIsGuarded(s: State, e: Event)
    requires Inv(s) && DueToActive(s) && StagesFit(s) && Careful(s, e)
    ensures Guarded(s, e)
  {
    if e.SessionCall? && e.session < |s.sessions| {
      assert SessionFits(s, e.session);
    }
  }

  lemma CarefulCallFits(s: State, k: nat, call: Call)
    requires Inv(s) && StagesFit(s)
    ensures StagesFit(CallSession(s, k, call))
  {
    if k < |s.sessions| {
      var t := CallSession(s, k, call);
      CallKeepsActive(s, k, call);
      assert SessionFits(s, k);
      StageGrows(true, s.sessions[k].state, call);
      forall i | 0 <= i < |t.owed|
        ensures t.owed[i].session < |t.sessions| && Finished(t.sessions[t.owed[i].session].state)
      {
        if i == |s.owed| {
          NextFits(true, s.sessions[k].state, s.sessions[k].commits, call);
        }
      }
    }
  }

  lemma CompleteFits(s: State, i: nat)
    requires DueToActive(s) && StagesFit(s)
    ensures StagesFit(Step(s, Complete(i)))
  {
    if i < |s.owed| && s.owed[i].told {
      var t := Step(s, Complete(i));
      CompleteKeepsActive(s, i);
      assert forall n :: 0 <= n < |t.owed| ==> t.owed[n] == s.owed[if n < i then n else n + 1];
    }
  }

  lemma QuietFits(s: State, e: Event)
    requires Inv(s) && StagesFit(s) && Careful(s, e) && !e.SessionCall? && !e.Complete? && !e.CancelAction?
    ensures StagesFit(Step(s, e))
  {
    var t := Step(s, e);
    assert forall j | IsActive(s, j) :: IsActive(t, j);
    assert forall n :: 0 <= n < |t.owed| ==> t.owed[n].session == s.owed[n].session;
  }

  lemma CarefulStepFits(s: State, e: Event)
    requires Inv(s) && DueToActive(s) && StagesFit(s) && Careful(s, e)
    ensures StagesFit(Step(s, e))
  {
    match e
    case SessionCall(k, call) => CarefulCallFits(s, k, call);
    case CancelAction(name) =>
      if name in s.tables.active {
        CarefulCallFits(s, s.tables.active[name], Cancel);
      }
    case Complete(i) => CompleteFits(s, i);
    case _ => QuietFits(s, e);
  }

  /** Careful callers are guarded, so every completion of theirs ends its own session. */
  lemma {:induction false} CompletionIsOwn(events: seq<Event>)
    requires CarefulRun(events)
    ensures GuardedRun(events) && DueToActiveThroughout(events) && StagesFit(Exec(Init(), events))
  {
    if events != [] {
      var front, e := events[..|events| - 1], events[|events| - 1];
      var s := Exec(Init(), front);
      CompletionIsOwn(front);
      RunKeeps(front);
      CarefulIsGuarded(s, e);
      CarefulStepFits(s, e);
      CompletionsAreOwnIff(events);
    }
  }

  // ---------- what happens without the guards ----------

  lemma ExecAppend(s: State, events: seq<Event>, e: Event)
    ensures Exec(s, events + [e]) == Step(Exec(s, events), e)
  {
    assert (events + [e])[..|events + [e]| - 1] == events;
  }

  /** Two goals created before the first is dispatched: the first goal is given to the second session. */
  lemma MixedUp(name: Name, types: TypeIds) returns (events: seq<Event>)
    ensures var s := Exec(Init(), events);
            && s.given == [(Task(name, 0), 1)] && MarkedExecuting(s.tables, name) && s.tables.active == map[name := 1]
            && s.sessions == [Session(name, Accepted, [], []), Session(name, Accepted, [], [])]
            && s.owed == [] && s.tables.commanders == map[name := types]
  {
    events := [];
    ExecAppend(Init(), events, RegisterCommander(name, types));
    events := events + [RegisterCommander(name, types)];
    ExecAppend(Init(), events, RegisterActor(name));
    events := events + [RegisterActor(name)];
    ExecAppend(Init(), events, Create(name, types));
    events := events + [Create(name, types)];
    ExecAppend(Init(), events, Create(name, types));
    events := events + [Create(name, types)];
    ExecAppend(Init(), events, PushGoal(0));
    events := events + [PushGoal(0)];
    ExecAppend(Init(), events, Take);
    events := events + [Take];
    ExecAppend(Init(), events, Dispatch);
    events := events + [Dispatch];
  }

  /** Two untouched sessions of one action, the second active and dispatched, nothing owed: aborting the first, and
      calling its callbacks, takes the second off the table. */
  lemma AbortFirst(s: State, name: Name)
    requires s.sessions == [Session(name, Accepted, [], []), Session(name, Accepted, [], [])] && s.owed == []
    ensures var t := Step(s, SessionCall(0, Abort));
            t.owed == [Owed(0, Aborted, false)] && t.tables == s.tables && t.given == s.given
            && |t.sessions| == 2 && t.sessions[0].name == name && t.sessions[1] == s.sessions[1]
  {
  }

  lemma TellFirst(s: State, name: Name)
    requires |s.sessions| == 2 && s.sessions[0].name == name && s.owed == [Owed(0, Aborted, false)]
    ensures var t := Step(s, Tell(0));
            t.owed == [Owed(0, Aborted, true)] && t.tables == s.tables && t.given == s.given
            && |t.sessions| == 2 && t.sessions[0].name == name && t.sessions[1] == s.sessions[1]
  {
  }

  lemma CompleteFirst(s: State, name: Name)
    requires |s.sessions| == 2 && s.sessions[0].name == name && s.owed == [Owed(0, Aborted, true)]
    ensures var t := Step(s, Complete(0));
            t.tables == Completed(s.tables, name) && t.given == s.given && t.sessions == s.sessions
  {
  }

  /** The promise of one running goal per actor breaks: when the first session is then aborted, its completion removes
      the second, whose goal is running and not finished, and frees the actor for a third. */
  lemma StaleCompletion(name: Name, types: TypeIds) returns (events: seq<Event>)
    ensures var s := Exec(Init(), events);
            && s.given == [(Task(name, 0), 1)] && |s.sessions| == 3 && !Finished(s.sessions[1].state)
            && !MarkedExecuting(s.tables, name) && s.tables.active == map[name := 2]
  {
    events := MixedUp(name, types);
    AbortFirst(Exec(Init(), events), name);
    ExecAppend(Init(), events, SessionCall(0, Abort));
    events := events + [SessionCall(0, Abort)];
    TellFirst(Exec(Init(), events), name);
    ExecAppend(Init(), events, Tell(0));
    events := events + [Tell(0)];
    CompleteFirst(Exec(Init(), events), name);
    ExecAppend(Init(), events, Complete(0));
    events := events + [Complete(0)];
    ExecAppend(Init(), events, Create(name, types));
    events := events + [Create(name, types)];
  }
}
