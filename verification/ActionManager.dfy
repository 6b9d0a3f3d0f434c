/** The tables of the action manager, sdk/fins/action/action_manager.cpp, one critical section at a time. */
module ActionManager {
  import opened Wrappers
  import opened ActionSession

  type Name = string
  type TypeIds = (string, string)

  /** What map_mutex_ guards: commanders, actors with their is_executing mark, and the active session of each action. */
  datatype Tables<S> = Tables(commanders: map<Name, TypeIds>, actors: map<Name, bool>, active: map<Name, S>)

  datatype Refusal = AlreadyExecuting | NoCommander | TypeMismatch

  /** The exceptions of create_action_session, in the order they are checked. */
  function Refused<S>(t: Tables<S>, name: Name, types: TypeIds): Option<Refusal> {
    if name in t.actors && t.actors[name] then Some(AlreadyExecuting)
    else if name !in t.commanders then Some(NoCommander)
    else if t.commanders[name] != types then Some(TypeMismatch)
    else None
  }

  /** A creation is accepted if and only if the actor is not executing and the commander is registered with the
      types. */
  lemma RefusedByCase<S>(t: Tables<S>, name: Name, types: TypeIds)
    ensures var executing := name in t.actors && t.actors[name];
            var known := name in t.commanders;
            && (Refused(t, name, types) == Some(AlreadyExecuting) <==> executing)
            && (Refused(t, name, types) == Some(NoCommander) <==> !executing && !known)
            && (Refused(t, name, types) == Some(TypeMismatch) <==> !executing && known && t.commanders[name] != types)
            && (Refused(t, name, types).None? <==> !executing && known && t.commanders[name] == types)
  {
  }

  predicate MarkedExecuting<S>(t: Tables<S>, name: Name) {
    name in t.actors && t.actors[name]
  }

  function Completed<S>(t: Tables<S>, name: Name): Tables<S> {
    t.(actors := if name in t.actors then t.actors[name := false] else t.actors, active := t.active - {name})
  }

  predicate CanDispatch<S>(t: Tables<S>, name: Name) {
    name in t.actors && name in t.active
  }

  datatype Goal = Goal(name: Name, args: string)

  class ActionManager {
    var commanders: map<Name, TypeIds>
    var actors: map<Name, bool>
    var activeSessions: map<Name, TypeErasedActionSession>
    var goalTasks: seq<Goal>

    /** Every active session is for its action, and an actor marked executing has one. */
    ghost predicate Valid()
      reads this
    {
      && (forall name :: name in activeSessions ==> activeSessions[name].actionName == name)
      && (forall name :: MarkedExecuting(View(), name) ==> name in activeSessions)
    }

    ghost function View(): Tables<TypeErasedActionSession>
      reads this
    {
      Tables(commanders, actors, activeSessions)
    }

    constructor ()
      ensures Valid() && View() == Tables(map[], map[], map[]) && goalTasks == []
    {
      commanders, actors, activeSessions, goalTasks := map[], map[], map[], [];
    }

    method RegisterCommander(name: Name, types: TypeIds)
      requires Valid()
      modifies this`commanders
      ensures Valid() && commanders == old(commanders)[name := types]
    {
      commanders := commanders[name := types];
    }

    /** Registering again clears the mark, whatever the actor is doing. */
    method RegisterActor(name: Name)
      requires Valid()
      modifies this`actors
      ensures Valid() && actors == old(actors)[name := false]
    {
      actors := actors[name := false];
    }

    /** A refused call changes nothing; an accepted one replaces the active session of the action, if it had one, and
        queues its goal last. */
    method CreateActionSession(name: Name, args: string, types: TypeIds)
      returns (refused: Option<Refusal>, session: TypeErasedActionSession?)
      requires Valid()
      modifies this`activeSessions, this`goalTasks
      ensures Valid() && refused == Refused(old(View()), name, types) && (session == null <==> refused.Some?)
      ensures refused.Some? ==> activeSessions == old(activeSessions) && goalTasks == old(goalTasks)
      ensures refused.None? ==>
                && fresh(session) && session.state == Accepted && !MarkedExecuting(View(), name)
                && activeSessions == old(activeSessions)[name := session]
                && goalTasks == old(goalTasks) + [Goal(name, args)]
    {
      session := null;
      if name in actors && actors[name] {
        return Some(AlreadyExecuting), null;
      }
      if name !in commanders {
        return Some(NoCommander), null;
      }
      if commanders[name] != types {
        return Some(TypeMismatch), null;
      }
      refused := None;
      var created := new TypeErasedActionSession(name);
      activeSessions := activeSessions[name := created];
      goalTasks := goalTasks + [Goal(name, args)];
      session := created;
    }

    method CancelAction(name: Name)
      requires Valid()
      modifies activeSessions.Values
      ensures Valid()
      ensures forall other :: other in activeSessions && activeSessions[other].state != old(activeSessions[other].state)
                ==> other == name
      ensures name in activeSessions ==>
                activeSessions[name].state == Next(true, old(activeSessions[name].state), Call.Cancel).0
    {
      if name in activeSessions {
        activeSessions[name].Cancel();
      }
    }

    method OnComplete(name: Name)
      requires Valid()
      modifies this`actors, this`activeSessions
      ensures Valid() && View() == Completed(old(View()), name)
    {
      if name in actors {
        actors := actors[name := false];
      }
      activeSessions := activeSessions - {name};
    }

    /** One turn of the worker: the oldest goal goes to the session now active for its action, if there is one and an
        actor is registered, and the actor is marked; otherwise the goal is dropped. */
    method WorkerTurn() returns (session: TypeErasedActionSession?, goal: Goal)
      requires Valid() && goalTasks != []
      modifies this`actors, this`goalTasks
      ensures Valid() && goal == old(goalTasks)[0] && goalTasks == old(goalTasks)[1..]
      ensures if CanDispatch(old(View()), goal.name)
              then session == activeSessions[goal.name] && actors == old(actors)[goal.name := true]
              else session == null && actors == old(actors)
    {
      goal := goalTasks[0];
      goalTasks := goalTasks[1..];
      if goal.name !in actors {
        return null, goal;
      }
      if goal.name !in activeSessions {
        return null, goal;
      }
      session := activeSessions[goal.name];
      actors := actors[goal.name := true];
    }
  }
}
