/** Action sessions: the session template of sdk/fins/action/action_session.hpp:44-147 and the type-erased session the
    manager makes, sdk/fins/action/action_manager.cpp:68-166. */
module ActionSession {
  datatype ActionState = Accepted | Executing | Succeeded | Canceled | Canceling | Aborted

  datatype Call = Cancel | Execute | Succeed | Abort | SetCanceled

  predicate Finished(state: ActionState) {
    state.Succeeded? || state.Aborted? || state.Canceled?
  }

  /** Open, canceling, finished. */
  function Stage(state: ActionState): (stage: nat)
    ensures stage <= 2
  {
    if Finished(state) then 2 else if state.Canceling? then 1 else 0
  }

  /** The state after a call, and the result it commits, if any, which then goes to the result callback. */
  function Next(erased: bool, state: ActionState, call: Call): (ActionState, seq<ActionState>) {
    match call
    case Cancel => (if Stage(state) == 0 then Canceling else state, [])
    case Execute => (if state.Accepted? && !erased then Executing else state, [])
    case Succeed => if erased || state.Executing? then (Succeeded, [Succeeded]) else (state, [])
    case Abort => (Aborted, [Aborted])
    case SetCanceled => if state.Canceling? then (Canceled, [Canceled]) else (state, [])
  }

  /** Every call, by cases: what an open session becomes, and what is committed. */
  lemma CallsByCase(erased: bool, state: ActionState)
    ensures var open := state.Accepted? || state.Executing?;
            && Next(erased, state, Cancel) == (if open then Canceling else state, [])
            && (open ==> Next(erased, Next(erased, state, Cancel).0, SetCanceled) == (Canceled, [Canceled]))
    ensures !state.Canceling? ==> Next(erased, state, SetCanceled) == (state, [])
    ensures Next(false, Accepted, Execute) == (Executing, [])
    ensures !state.Accepted? ==> Next(false, state, Execute) == (state, [])
    ensures Next(erased, state, Execute).1 == []
    ensures Next(erased, Executing, Succeed) == (Succeeded, [Succeeded])
    ensures Next(true, state, Succeed) == (Succeeded, [Succeeded])
    ensures !state.Executing? ==> Next(false, state, Succeed) == (state, [])
    ensures Next(erased, state, Abort) == (Aborted, [Aborted])
  {
  }

  function After(erased: bool, calls: seq<Call>): (ActionState, seq<ActionState>) {
    if calls == [] then (Accepted, [])
    else
      var (state, results) := After(erased, calls[..|calls| - 1]);
      var (state', more) := Next(erased, state, calls[|calls| - 1]);
      (state', results + more)
  }

  /** A session never goes back: open, canceling, finished. */
  lemma StageGrows(erased: bool, state: ActionState, call: Call)
    ensures Stage(state) <= Stage(Next(erased, state, call).0)
  {
  }

  /** The session is finished once a result was committed, and the last one committed is its state. */
  predicate ResultsFit(state: ActionState, results: seq<ActionState>) {
    && (Finished(state) <==> results != [])
    && (results != [] ==> results[|results| - 1] == state)
    && (forall i :: 0 <= i < |results| ==> Finished(results[i]))
    && (forall i :: 0 < i < |results| ==> results[i] != Canceled)
  }

  lemma NextFits(erased: bool, state: ActionState, results: seq<ActionState>, call: Call)
    requires ResultsFit(state, results) && (erased ==> !state.Executing?)
    ensures var (state', more) := Next(erased, state, call);
            ResultsFit(state', results + more) && (erased ==> !state'.Executing?)
  {
  }

  /** Over any calls, Canceled is only ever the first result: it is committed at most once, and never after Succeeded
      or Aborted. In the session template only Aborted can come later; the type-erased session lets Succeeded, too,
      overwrite an earlier result. */
  lemma {:induction false} FirstResultOnly(erased: bool, calls: seq<Call>)
    ensures var (state, results) := After(erased, calls);
            && ResultsFit(state, results)
            && (erased ==> !state.Executing?)
            && (!erased ==> forall i :: 0 < i < |results| ==> results[i] == Aborted)
  {
    if calls != [] {
      FirstResultOnly(erased, calls[..|calls| - 1]);
      var (state, results) := After(erased, calls[..|calls| - 1]);
      NextFits(erased, state, results, calls[|calls| - 1]);
    }
  }

  /** So a commander can be told twice: after success that the action was aborted, or the other way round. */
  lemma ResultsCanBeOverwritten()
    ensures After(false, [Execute, Succeed, Abort]).1 == [Succeeded, Aborted]
    ensures After(true, [Abort, Succeed]).1 == [Aborted, Succeeded]
  {
    assert [] + [Execute] == [Execute] && [] + [Abort] == [Abort];
    assert [Execute] + [Succeed] == [Execute, Succeed] && [Execute, Succeed] + [Abort] == [Execute, Succeed, Abort];
    assert [Abort] + [Succeed] == [Abort, Succeed];
    assert After(false, [Execute]) == (Executing, [] + []);
    assert After(false, [Execute, Succeed]) == (Succeeded, [] + [] + [Succeeded]);
    assert After(true, [Abort]) == (Aborted, [] + [Aborted]);
  }

  predicate Overwrites(erased: bool, call: Call) {
    call.Abort? || (erased && call.Succeed?)
  }

  /** Somebody aborts, or on the type-erased session succeeds, what is already finished. */
  ghost predicate FinishedTwice(erased: bool, calls: seq<Call>) {
    exists i :: 0 <= i < |calls| && Finished(After(erased, calls[..i]).0) && Overwrites(erased, calls[i])
  }

  lemma FinishedTwiceStep(erased: bool, front: seq<Call>, last: Call)
    ensures FinishedTwice(erased, front + [last])
            <==> FinishedTwice(erased, front) || (Finished(After(erased, front).0) && Overwrites(erased, last))
  {
    var calls := front + [last];
    assert calls[|front|] == last && calls[..|front|] == front;
    forall i | 0 <= i < |front| ensures calls[..i] == front[..i] && calls[i] == front[i] {}
  }

  lemma ResultsStep(erased: bool, front: seq<Call>, last: Call)
    ensures |After(erased, front + [last]).1| > 1
            <==> |After(erased, front).1| > 1 || (Finished(After(erased, front).0) && Overwrites(erased, last))
  {
    FirstResultOnly(erased, front);
  }

  /** A commander is told more than one result exactly when that happens. */
  lemma {:induction false} ToldTwiceIff(erased: bool, calls: seq<Call>)
    ensures |After(erased, calls).1| > 1 <==> FinishedTwice(erased, calls)
  {
    if calls != [] {
      var front, last := calls[..|calls| - 1], calls[|calls| - 1];
      assert calls == front + [last];
      ToldTwiceIff(erased, front);
      FinishedTwiceStep(erased, front, last);
      ResultsStep(erased, front, last);
    }
  }

  // ---------- the classes ----------

  /** The session template: every transition is guarded but abort. `results` is what the result callback got. */
  class ActionSession {
    var state: ActionState
    ghost var results: seq<ActionState>

    constructor ()
      ensures state == Accepted && results == []
    {
      state, results := Accepted, [];
    }

    method Cancel()
      modifies this
      ensures (state, results) == (Next(false, old(state), Call.Cancel).0, old(results))
    {
      if state == Accepted || state == Executing {
        state := Canceling;
      }
    }

    method Execute()
      modifies this
      ensures (state, results) == (Next(false, old(state), Call.Execute).0, old(results))
    {
      if state == Accepted {
        state := Executing;
      }
    }

    method Succeed()
      modifies this
      ensures (state, results) == (Next(false, old(state), Call.Succeed).0,
                                   old(results) + Next(false, old(state), Call.Succeed).1)
    {
      if state == Executing {
        state := Succeeded;
        results := results + [Succeeded];
      }
      assert old(results) + [] == old(results);
    }

    method Abort()
      modifies this
      ensures (state, results) == (Next(false, old(state), Call.Abort).0,
                                   old(results) + Next(false, old(state), Call.Abort).1)
    {
      state := Aborted;
      results := results + [Aborted];
    }

    method SetCanceled()
      modifies this
      ensures (state, results) == (Next(false, old(state), Call.SetCanceled).0,
                                   old(results) + Next(false, old(state), Call.SetCanceled).1)
    {
      if state == Canceling {
        state := Canceled;
        results := results + [Canceled];
      }
      assert old(results) + [] == old(results);
    }
  }

  /** The manager's session: succeed is not guarded. A method that commits a result gives it back; its callbacks are
      due outside the session's mutex, first the result's, then the manager's on_complete. */
  class TypeErasedActionSession {
    const actionName: string
    var state: ActionState
    ghost var commits: seq<ActionState>

    constructor (actionName: string)
      ensures this.actionName == actionName && state == Accepted && commits == []
    {
      this.actionName := actionName;
      state, commits := Accepted, [];
    }

    method Cancel()
      modifies this
      ensures (state, commits) == (Next(true, old(state), Call.Cancel).0, old(commits))
    {
      if state == Accepted || state == Executing {
        state := Canceling;
      }
    }

    method Succeed() returns (due: seq<ActionState>)
      modifies this
      ensures (state, due) == Next(true, old(state), Call.Succeed) && commits == old(commits) + due
    {
      state := Succeeded;
      due := [Succeeded];
      commits := commits + due;
    }

    method Abort() returns (due: seq<ActionState>)
      modifies this
      ensures (state, due) == Next(true, old(state), Call.Abort) && commits == old(commits) + due
    {
      state := Aborted;
      due := [Aborted];
      commits := commits + due;
    }

    method SetCanceled() returns (due: seq<ActionState>)
      modifies this
      ensures (state, due) == Next(true, old(state), Call.SetCanceled) && commits == old(commits) + due
    {
      due := [];
      if state == Canceling {
        state := Canceled;
        due := [Canceled];
      }
      commits := commits + due;
    }
  }
}
