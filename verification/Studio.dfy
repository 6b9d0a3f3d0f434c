/** The order in which sdk/fins/studio.hpp starts and stops the steps of a dataflow. */
module Studio {
  import opened Sequences
  import opened Topology
  import NodeLib

  datatype Event = Started(id: Id) | Stopped(id: Id)

  datatype StepView = StepView(hasNode: bool, running: bool)

  /** The steps, the order load_json gave, and a log of every start and stop. */
  datatype StudioView = StudioView(steps: map<Id, StepView>, order: seq<Id>, log: seq<Event>)

  /** Step::run on the step of that id, if there is one (sdk/fins/step.hpp:67-75). */
  function StartOne(s: StudioView, id: Id): StudioView {
    if id in s.steps && !s.steps[id].running && s.steps[id].hasNode
    then s.(steps := s.steps[id := s.steps[id].(running := true)], log := s.log + [Started(id)])
    else s
  }

  /** Step::pause on the step of that id, if there is one (sdk/fins/step.hpp:77-86). */
  function StopOne(s: StudioView, id: Id): StudioView {
    if id in s.steps && s.steps[id].running
    then s.(steps := s.steps[id := s.steps[id].(running := false)], log := s.log + [Stopped(id)])
    else s
  }

  function StartAll(s: StudioView, order: seq<Id>): StudioView {
    if order == [] then s else StartOne(StartAll(s, order[..|order| - 1]), order[|order| - 1])
  }

  /** From the last to the first. */
  function StopAll(s: StudioView, order: seq<Id>): StudioView
    decreases |order|
  {
    if order == [] then s else StopAll(StopOne(s, order[|order| - 1]), order[..|order| - 1])
  }

  function Without(order: seq<Id>, id: Id): (rest: seq<Id>) {
    if order == [] then []
    else Without(order[..|order| - 1], id) + if order[|order| - 1] == id then [] else [order[|order| - 1]]
  }

  function Removed(s: StudioView, id: Id): StudioView {
    if id !in s.steps then s
    else
      var t := StopOne(s, id);
      t.(steps := t.steps - {id}, order := Without(t.order, id))
  }

  /** The order whose reverse pause and clear stop in. Without a topology order that is the map's own, from front
      to back. */
  function StopOrder(s: StudioView, mapOrder: seq<Id>): seq<Id> {
    if s.order != [] then s.order else Reversed(mapOrder)
  }

  function Cleared(s: StudioView, mapOrder: seq<Id>): StudioView {
    StopAll(s, StopOrder(s, mapOrder)).(steps := map[], order := [])
  }

  // ---------- the classes ----------

  class Step {
    const id: Id
    var hasNode: bool
    var running: bool

    constructor (id: Id, hasNode: bool)
      ensures this.id == id && this.hasNode == hasNode && !running
    {
      this.id := id;
      this.hasNode := hasNode;
      running := false;
    }

    method Run()
      modifies this`running
      ensures running == (old(running) || hasNode)
    {
      if running || !hasNode {
        return;
      }
      running := true;
    }

    method Pause()
      modifies this`running
      ensures !running
    {
      if !running {
        return;
      }
      running := false;
    }
  }

  class Studio {
    var steps: map<Id, Step>
    var topologyOrder: seq<Id>
    var running: bool
    ghost var log: seq<Event>

    ghost predicate Valid()
      reads this, steps.Values
    {
      forall id :: id in steps ==> steps[id].id == id
    }

    ghost function View(): StudioView
      reads this`steps, this`topologyOrder, this`log, steps.Values
    {
      StudioView(map id | id in steps :: StepView(steps[id].hasNode, steps[id].running), topologyOrder, log)
    }

    constructor ()
      ensures Valid() && View() == StudioView(map[], [], []) && !running
    {
      steps, topologyOrder, running, log := map[], [], false, [];
    }

    /** Throws, that is gives back null, if the id is taken. */
    method AddStep(id: Id, hasNode: bool) returns (step: Step?)
      requires Valid()
      modifies this`steps
      ensures Valid() && (step == null <==> id in old(steps))
      ensures View() == if id in old(steps) then old(View())
                        else old(View()).(steps := old(View()).steps[id := StepView(hasNode, false)])
    {
      if id in steps {
        return null;
      }
      var created := new Step(id, hasNode);
      steps := steps[id := created];
      return created;
    }

    method SetTopologyOrder(order: seq<Id>)
      requires Valid()
      modifies this`topologyOrder
      ensures Valid() && View() == old(View()).(order := order)
    {
      topologyOrder := order;
    }

    method StartStep(id: Id)
      requires Valid()
      modifies this`log, steps.Values
      ensures Valid() && steps == old(steps) && View() == StartOne(old(View()), id)
    {
      if id in steps {
        ghost var was := steps[id].running;
        steps[id].Run();
        if !was && steps[id].running {
          log := log + [Started(id)];
        }
      }
    }

    method StopStep(id: Id)
      requires Valid()
      modifies this`log, steps.Values
      ensures Valid() && steps == old(steps) && View() == StopOne(old(View()), id)
    {
      if id in steps {
        if steps[id].running {
          steps[id].Pause();
          log := log + [Stopped(id)];
        }
      }
    }

    /** `mapOrder` is the order in which the map of steps iterates; it only matters without a topology order. */
    method Run(mapOrder: seq<Id>)
      requires Valid()
      modifies this`running, this`log, steps.Values
      ensures Valid() && running
      ensures View() == StartAll(old(View()), if topologyOrder != [] then topologyOrder else mapOrder)
      ensures forall edges :: Fits(old(View()), edges) && topologyOrder != [] ==>
                old(log) <= log && StartsInOrder(StartableSteps(old(View())), edges, log[|old(log)|..])
      ensures topologyOrder == [] && NoDuplicates(mapOrder) ==>
                log == old(log) + StartEvents(Kept(mapOrder, StartableSteps(old(View()))))
    {
      ghost var before := View();
      running := true;
      var order := if topologyOrder != [] then topologyOrder else mapOrder;
      for i := 0 to |order|
        invariant Valid() && running && steps == old(steps)
        invariant View() == StartAll(old(View()), order[..i])
      {
        assert order[..i + 1][..i] == order[..i];
        StartStep(order[i]);
      }
      assert order[..|order|] == order;
      RunLogs(before, mapOrder);
    }

    method StopInReverse(order: seq<Id>)
      requires Valid()
      modifies this`log, steps.Values
      ensures Valid() && steps == old(steps) && View() == StopAll(old(View()), order)
    {
      var i := |order|;
      assert order[..i] == order;
      while i > 0
        invariant 0 <= i <= |order| && Valid() && steps == old(steps)
        invariant StopAll(View(), order[..i]) == StopAll(old(View()), order)
      {
        i := i - 1;
        assert order[..i + 1][..i] == order[..i];
        StopStep(order[i]);
      }
    }

    /** Without a topology order the steps are stopped in map order. */
    method Pause(mapOrder: seq<Id>)
      requires Valid()
      modifies this`running, this`log, steps.Values
      ensures Valid() && !running
      ensures steps == old(steps) && View() == StopAll(old(View()), StopOrder(old(View()), mapOrder))
      ensures forall edges :: Fits(old(View()), edges) && topologyOrder != [] ==>
                old(log) <= log && StopsInOrder(RunningSteps(old(View())), edges, log[|old(log)|..])
      ensures topologyOrder == [] && NoDuplicates(mapOrder) ==>
                log == old(log) + StopEvents(Kept(mapOrder, RunningSteps(old(View()))))
    {
      running := false;
      ghost var before := View();
      assert before == old(View());
      if topologyOrder != [] {
        StopInReverse(topologyOrder);
      } else {
        StopInReverse(Reversed(mapOrder));
      }
      StopLogs(before, mapOrder);
    }

    method RemoveStep(id: Id)
      requires Valid()
      modifies this, steps.Values
      ensures Valid() && View() == Removed(old(View()), id)
      ensures steps == old(steps) - {id}
      ensures log == old(log) + if Running(old(View()), id) then [Stopped(id)] else []
      ensures id in old(steps) ==> topologyOrder == Kept(old(topologyOrder), Members(old(topologyOrder)) - {id})
    {
      if id !in steps {
        return;
      }
      StopStep(id);
      steps := steps - {id};
      topologyOrder := Without(topologyOrder, id);
      RemovedKeeps(old(View()), id);
    }

    method Clear(mapOrder: seq<Id>)
      requires Valid()
      modifies this, steps.Values
      ensures Valid() && !running
      ensures View() == Cleared(old(View()), mapOrder)
      ensures forall edges :: Fits(old(View()), edges) && old(topologyOrder) != [] ==>
                old(log) <= log && StopsInOrder(RunningSteps(old(View())), edges, log[|old(log)|..])
      ensures old(topologyOrder) == [] && NoDuplicates(mapOrder) ==>
                log == old(log) + StopEvents(Kept(mapOrder, RunningSteps(old(View()))))
      ensures steps == map[] && topologyOrder == []
    {
      Pause(mapOrder);
      steps, topologyOrder := map[], [];
    }
  }

  // ---------- what starting and stopping in order does ----------

  predicate Startable(s: StudioView, id: Id) {
    id in s.steps && !s.steps[id].running && s.steps[id].hasNode
  }

  predicate Running(s: StudioView, id: Id) {
    id in s.steps && s.steps[id].running
  }

  /** The entries of `order` that are in `keep`, in order. */
  function Kept(order: seq<Id>, keep: set<Id>): (r: seq<Id>) {
    if order == [] then []
    else Kept(order[..|order| - 1], keep) + if order[|order| - 1] in keep then [order[|order| - 1]] else []
  }

  lemma {:induction false} KeptMembers(order: seq<Id>, keep: set<Id>)
    ensures forall v :: v in Kept(order, keep) <==> v in order && v in keep
  {
    if order != [] {
      KeptMembers(order[..|order| - 1], keep);
    }
  }

  function StartEvents(ids: seq<Id>): (events: seq<Event>)
    ensures |events| == |ids| && forall i :: 0 <= i < |ids| ==> events[i] == Started(ids[i])
  {
    seq(|ids|, i requires 0 <= i < |ids| => Started(ids[i]))
  }

  function StopEvents(ids: seq<Id>): (events: seq<Event>)
    ensures |events| == |ids| && forall i :: 0 <= i < |ids| ==> events[i] == Stopped(ids[i])
  {
    seq(|ids|, i requires 0 <= i < |ids| => Stopped(ids[i]))
  }

  function StartableSteps(s: StudioView): set<Id> {
    set id | id in s.steps && Startable(s, id)
  }

  function RunningSteps(s: StudioView): set<Id> {
    set id | id in s.steps && Running(s, id)
  }

  lemma {:induction false} KeptConcat(a: seq<Id>, b: seq<Id>, keep: set<Id>)
    ensures Kept(a + b, keep) == Kept(a, keep) + Kept(b, keep)
  {
    if b == [] {
      assert a + b == a;
    } else {
      KeptConcat(a, b[..|b| - 1], keep);
      SplitLast(a, b);
      Associates(Kept(a, keep), Kept(b[..|b| - 1], keep), if b[|b| - 1] in keep then [b[|b| - 1]] else []);
    }
  }

  lemma {:induction false} KeptDistinct(order: seq<Id>, keep: set<Id>)
    requires NoDuplicates(order)
    ensures NoDuplicates(Kept(order, keep))
  {
    if order != [] {
      KeptMembers(order[..|order| - 1], keep);
      KeptDistinct(order[..|order| - 1], keep);
    }
  }

  lemma KeptSplit(order: seq<Id>, j: nat, keep: set<Id>)
    requires j < |order| && order[j] in keep
    ensures Kept(order, keep) == Kept(order[..j], keep) + [order[j]] + Kept(order[j + 1..], keep)
  {
    assert order == order[..j] + [order[j]] + order[j + 1..];
    KeptConcat(order[..j] + [order[j]], order[j + 1..], keep);
    KeptConcat(order[..j], [order[j]], keep);
  }

  /** Leaving out other entries does not turn an edge around. */
  lemma KeptForward(order: seq<Id>, keep: set<Id>, e: Edge)
    requires EdgeForward(order, e) && e.0 in keep && e.1 in keep
    ensures EdgeForward(Kept(order, keep), e)
  {
    var i, j :| 0 <= i < j < |order| && order[i] == e.0 && order[j] == e.1;
    KeptSplit(order, j, keep);
    var before := Kept(order[..j], keep);
    KeptMembers(order[..j], keep);
    assert order[..j][i] in before;
    var k :| 0 <= k < |before| && before[k] == e.0;
    assert Kept(order, keep)[k] == e.0 && Kept(order, keep)[|before|] == e.1;
  }

  /** Starting in order logs the startable steps of the order, in order, and leaves exactly them newly running. */
  lemma {:induction false} StartAllLogs(s: StudioView, order: seq<Id>)
    requires NoDuplicates(order)
    ensures var t := StartAll(s, order);
            && t.log == s.log + StartEvents(Kept(order, StartableSteps(s)))
            && t.order == s.order && t.steps.Keys == s.steps.Keys
            && forall id :: id in s.steps ==>
                 t.steps[id] == if id in order && s.steps[id].hasNode then s.steps[id].(running := true)
                                else s.steps[id]
  {
    if order != [] {
      var front, last := order[..|order| - 1], order[|order| - 1];
      StartAllLogs(s, front);
      assert last !in front;
      var kept := Kept(front, StartableSteps(s));
      if Startable(s, last) {
        assert StartEvents(kept + [last]) == StartEvents(kept) + [Started(last)];
      }
    }
  }

  lemma {:induction false} KeptSame(order: seq<Id>, keep: set<Id>, keep': set<Id>)
    requires forall v :: v in order ==> (v in keep <==> v in keep')
    ensures Kept(order, keep) == Kept(order, keep')
  {
    if order != [] {
      KeptSame(order[..|order| - 1], keep, keep');
    }
  }

  /** Stopping from the back logs the running steps of the order, in reverse, and leaves none of them running. */
  lemma {:induction false} StopAllLogs(s: StudioView, order: seq<Id>)
    requires NoDuplicates(order)
    ensures var t := StopAll(s, order);
            && t.log == s.log + StopEvents(Reversed(Kept(order, RunningSteps(s))))
            && t.order == s.order && t.steps.Keys == s.steps.Keys
            && forall id :: id in s.steps ==>
                 t.steps[id] == if id in order then s.steps[id].(running := false) else s.steps[id]
    decreases |order|
  {
    if order != [] {
      var front, last := order[..|order| - 1], order[|order| - 1];
      assert order == front + [last];
      StopAllLogs(StopOne(s, last), front);
      StopOneLogs(s, front, last);
    }
  }

  lemma RunningAfterStop(s: StudioView, id: Id)
    ensures RunningSteps(StopOne(s, id)) == RunningSteps(s) - {id}
  {
  }

  lemma KeptAppend(front: seq<Id>, last: Id, keep: set<Id>)
    ensures Kept(front + [last], keep) == if last in keep then Kept(front, keep) + [last] else Kept(front, keep)
  {
    assert (front + [last])[..|front + [last]| - 1] == front;
  }

  lemma StopOneLogs(s: StudioView, front: seq<Id>, last: Id)
    requires last !in front
    ensures var s1 := StopOne(s, last);
            s1.log + StopEvents(Reversed(Kept(front, RunningSteps(s1))))
            == s.log + StopEvents(Reversed(Kept(front + [last], RunningSteps(s))))
  {
    var keep := RunningSteps(s);
    RunningAfterStop(s, last);
    KeptSame(front, keep, keep - {last});
    KeptAppend(front, last, keep);
    if last in keep {
      var kept := Kept(front, keep);
      StopEventsPrepend(last, Reversed(kept));
    }
  }

  lemma StopEventsPrepend(first: Id, rest: seq<Id>)
    ensures StopEvents([first] + rest) == [Stopped(first)] + StopEvents(rest)
  {
  }

  // ---------- the lifecycle order ----------

  /** The order lists exactly the steps, once each, and no edge between steps goes backwards. */
  ghost predicate Fits(s: StudioView, edges: seq<Edge>) {
    && NoDuplicates(s.order)
    && (forall id :: id in s.order <==> id in s.steps)
    && (forall e :: e in edges && e.0 in s.steps && e.1 in s.steps ==> EdgeForward(s.order, e))
  }

  ghost predicate OccursOnce(log: seq<Event>, e: Event) {
    exists i :: 0 <= i < |log| && log[i] == e && forall j :: 0 <= j < |log| && j != i ==> log[j] != e
  }

  ghost predicate Precedes(log: seq<Event>, a: Event, b: Event) {
    exists i, j :: 0 <= i < j < |log| && log[i] == a && log[j] == b
  }

  lemma StartEventsOnce(ids: seq<Id>, id: Id)
    requires NoDuplicates(ids) && id in ids
    ensures OccursOnce(StartEvents(ids), Started(id))
  {
    var i :| 0 <= i < |ids| && ids[i] == id;
    assert StartEvents(ids)[i] == Started(id);
  }

  lemma StopEventsOnce(ids: seq<Id>, id: Id)
    requires NoDuplicates(ids) && id in ids
    ensures OccursOnce(StopEvents(Reversed(ids)), Stopped(id))
  {
    var i :| 0 <= i < |ids| && ids[i] == id;
    var events := StopEvents(Reversed(ids));
    var n := |ids| - 1 - i;
    assert events[n] == Stopped(id);
    forall m | 0 <= m < |events| && m != n ensures events[m] != Stopped(id) {
      assert events[m] == Stopped(ids[|ids| - 1 - m]);
    }
  }

  lemma StopEventsBackward(ids: seq<Id>, e: Edge)
    requires EdgeForward(ids, e)
    ensures Precedes(StopEvents(Reversed(ids)), Stopped(e.1), Stopped(e.0))
  {
    var i, j :| 0 <= i < j < |ids| && ids[i] == e.0 && ids[j] == e.1;
    var events := StopEvents(Reversed(ids));
    assert events[|ids| - 1 - j] == Stopped(e.1) && events[|ids| - 1 - i] == Stopped(e.0);
  }

  /** What a start of `startable` steps must log: each of them once, producers before consumers, nothing else. */
  ghost predicate StartsInOrder(startable: set<Id>, edges: seq<Edge>, logged: seq<Event>) {
    && (forall id :: id in startable ==> OccursOnce(logged, Started(id)))
    && (forall ev :: ev in logged ==> ev.Started? && ev.id in startable)
    && (forall e :: e in edges && e.0 in startable && e.1 in startable ==>
          Precedes(logged, Started(e.0), Started(e.1)))
  }

  ghost predicate StopsInOrder(running: set<Id>, edges: seq<Edge>, logged: seq<Event>) {
    && (forall id :: id in running ==> OccursOnce(logged, Stopped(id)))
    && (forall ev :: ev in logged ==> ev.Stopped? && ev.id in running)
    && (forall e :: e in edges && e.0 in running && e.1 in running ==>
          Precedes(logged, Stopped(e.1), Stopped(e.0)))
  }

  lemma StartEventsInOrder(order: seq<Id>, keep: set<Id>, edges: seq<Edge>)
    requires NoDuplicates(order) && keep <= Members(order)
    requires forall e :: e in edges && e.0 in keep && e.1 in keep ==> EdgeForward(order, e)
    ensures StartsInOrder(keep, edges, StartEvents(Kept(order, keep)))
  {
    var kept := Kept(order, keep);
    KeptMembers(order, keep);
    KeptDistinct(order, keep);
    forall id | id in keep ensures OccursOnce(StartEvents(kept), Started(id)) {
      StartEventsOnce(kept, id);
    }
    forall e | e in edges && e.0 in keep && e.1 in keep
      ensures Precedes(StartEvents(kept), Started(e.0), Started(e.1))
    {
      KeptForward(order, keep, e);
    }
    assert forall i :: 0 <= i < |kept| ==> kept[i] in keep;
  }

  lemma StopEventsInOrder(order: seq<Id>, keep: set<Id>, edges: seq<Edge>)
    requires NoDuplicates(order) && keep <= Members(order)
    requires forall e :: e in edges && e.0 in keep && e.1 in keep ==> EdgeForward(order, e)
    ensures StopsInOrder(keep, edges, StopEvents(Reversed(Kept(order, keep))))
  {
    var kept := Kept(order, keep);
    KeptMembers(order, keep);
    KeptDistinct(order, keep);
    forall id | id in keep ensures OccursOnce(StopEvents(Reversed(kept)), Stopped(id)) {
      StopEventsOnce(kept, id);
    }
    forall e | e in edges && e.0 in keep && e.1 in keep
      ensures Precedes(StopEvents(Reversed(kept)), Stopped(e.1), Stopped(e.0))
    {
      KeptForward(order, keep, e);
      StopEventsBackward(kept, e);
    }
    assert forall i :: 0 <= i < |kept| ==> kept[i] in keep;
  }

  /** Studio::run starts every step that can start exactly once, producers before consumers, and nothing else. */
  lemma RunStartsProducersFirst(s: StudioView, edges: seq<Edge>)
    requires Fits(s, edges)
    ensures var t := StartAll(s, s.order);
            && s.log <= t.log && StartsInOrder(StartableSteps(s), edges, t.log[|s.log|..])
            && (forall id :: id in s.steps && s.steps[id].hasNode ==> Running(t, id))
  {
    StartAllLogs(s, s.order);
    StartEventsInOrder(s.order, StartableSteps(s), edges);
    assert StartAll(s, s.order).log[|s.log|..] == StartEvents(Kept(s.order, StartableSteps(s)));
  }

  /** Studio::pause (and the stopping half of clear) stops every running step once, consumers before producers. */
  lemma PauseStopsConsumersFirst(s: StudioView, edges: seq<Edge>)
    requires Fits(s, edges)
    ensures var t := StopAll(s, s.order);
            && s.log <= t.log && StopsInOrder(RunningSteps(s), edges, t.log[|s.log|..])
            && (forall id :: id in s.steps ==> !Running(t, id))
  {
    StopAllLogs(s, s.order);
    StopEventsInOrder(s.order, RunningSteps(s), edges);
    assert StopAll(s, s.order).log[|s.log|..] == StopEvents(Reversed(Kept(s.order, RunningSteps(s))));
  }

  lemma {:induction false} KeptReversed(order: seq<Id>, keep: set<Id>)
    ensures Reversed(Kept(Reversed(order), keep)) == Kept(order, keep)
    decreases |order|
  {
    if order != [] {
      var front, last := order[..|order| - 1], order[|order| - 1];
      var kept := if last in keep then [last] else [];
      KeptReversed(front, keep);
      assert Reversed(order) == [last] + Reversed(front);
      KeptConcat([last], Reversed(front), keep);
      assert Kept([last], keep) == kept by {
        assert [last][..0] == [];
      }
      assert Reversed(kept + Kept(Reversed(front), keep)) == Reversed(Kept(Reversed(front), keep)) + kept;
    }
  }

  lemma RemovedKeeps(s: StudioView, id: Id)
    requires id in s.steps
    ensures var t := Removed(s, id);
            && t.order == Kept(s.order, Members(s.order) - {id})
            && t.log == s.log + if Running(s, id) then [Stopped(id)] else []
  {
    WithoutIsKept(s.order, id, Members(s.order) - {id});
  }

  lemma ReversedDistinct(order: seq<Id>)
    requires NoDuplicates(order)
    ensures NoDuplicates(Reversed(order))
  {
  }

  /** What Studio::run logs, with a topology order and without one. */
  lemma RunLogs(s: StudioView, mapOrder: seq<Id>)
    ensures forall edges :: Fits(s, edges) && s.order != [] ==>
              var t := StartAll(s, s.order);
              s.log <= t.log && StartsInOrder(StartableSteps(s), edges, t.log[|s.log|..])
    ensures NoDuplicates(mapOrder) ==>
              StartAll(s, mapOrder).log == s.log + StartEvents(Kept(mapOrder, StartableSteps(s)))
  {
    forall edges | Fits(s, edges)
      ensures s.log <= StartAll(s, s.order).log
      ensures StartsInOrder(StartableSteps(s), edges, StartAll(s, s.order).log[|s.log|..])
    {
      RunStartsProducersFirst(s, edges);
    }
    if NoDuplicates(mapOrder) {
      StartAllLogs(s, mapOrder);
    }
  }

  /** What Studio::pause and Studio::clear log. */
  lemma StopLogs(s: StudioView, mapOrder: seq<Id>)
    ensures forall edges :: Fits(s, edges) && s.order != [] ==>
              var t := StopAll(s, StopOrder(s, mapOrder));
              s.log <= t.log && StopsInOrder(RunningSteps(s), edges, t.log[|s.log|..])
    ensures s.order == [] && NoDuplicates(mapOrder) ==>
              StopAll(s, StopOrder(s, mapOrder)).log == s.log + StopEvents(Kept(mapOrder, RunningSteps(s)))
  {
    forall edges | Fits(s, edges) && s.order != []
      ensures s.log <= StopAll(s, s.order).log
      ensures StopsInOrder(RunningSteps(s), edges, StopAll(s, s.order).log[|s.log|..])
    {
      PauseStopsConsumersFirst(s, edges);
    }
    if s.order == [] && NoDuplicates(mapOrder) {
      ReversedDistinct(mapOrder);
      StopAllLogs(s, Reversed(mapOrder));
      KeptReversed(mapOrder, RunningSteps(s));
    }
  }

  lemma {:induction false} WithoutIsKept(order: seq<Id>, id: Id, keep: set<Id>)
    requires id !in keep && forall v :: v in order && v != id ==> v in keep
    ensures Without(order, id) == Kept(order, keep)
  {
    if order != [] {
      WithoutIsKept(order[..|order| - 1], id, keep);
    }
  }

  /** remove_step keeps the order equal, as a set, to the step ids, and its edges forward. */
  lemma RemoveKeepsFit(s: StudioView, id: Id, edges: seq<Edge>)
    requires Fits(s, edges)
    ensures Fits(Removed(s, id), edges)
  {
    if id in s.steps {
      var keep := s.steps.Keys - {id};
      WithoutIsKept(s.order, id, keep);
      KeptMembers(s.order, keep);
      KeptDistinct(s.order, keep);
      forall e | e in edges && e.0 in keep && e.1 in keep ensures EdgeForward(Kept(s.order, keep), e) {
        KeptForward(s.order, keep, e);
      }
    }
  }

  datatype Op = Run | Pause | RemoveStep(id: Id)

  function Applied(s: StudioView, op: Op): StudioView {
    match op
    case Run => StartAll(s, s.order)
    case Pause => StopAll(s, s.order)
    case RemoveStep(id) => Removed(s, id)
  }

  function AppliedAll(s: StudioView, ops: seq<Op>): StudioView {
    if ops == [] then s else Applied(AppliedAll(s, ops[..|ops| - 1]), ops[|ops| - 1])
  }

  /** Over any sequence of run, pause and remove_step the order keeps fitting the steps. */
  lemma {:induction false} OpsKeepFit(s: StudioView, edges: seq<Edge>, ops: seq<Op>)
    requires Fits(s, edges)
    ensures Fits(AppliedAll(s, ops), edges)
  {
    if ops != [] {
      var t := AppliedAll(s, ops[..|ops| - 1]);
      OpsKeepFit(s, edges, ops[..|ops| - 1]);
      match ops[|ops| - 1]
      case Run => StartAllLogs(t, t.order);
      case Pause => StopAllLogs(t, t.order);
      case RemoveStep(id) => RemoveKeepsFit(t, id, edges);
    }
  }

  /** A dataflow without cycles, freshly loaded: the order load_json sets fits the steps it created. */
  lemma LoadedFits(ids: seq<Id>, edges: seq<Edge>, s: StudioView)
    requires InitializationOrder(ids, edges, s.order) && !exists v :: OnCycle(edges, v)
    requires s.steps.Keys == Members(ids)
    ensures Fits(s, edges)
  {
    AcyclicOrder(ids, edges, s.order);
  }

  /** One step per node, with its node, not running. */
  ghost predicate HasSteps(s: StudioView, ids: seq<Id>) {
    && s.steps.Keys == Members(ids)
    && (forall id :: id in s.steps ==> s.steps[id] == StepView(true, false))
  }

  method AddSteps(studio: Studio, ids: seq<Id>)
    requires studio.Valid() && studio.steps == map[] && NoDuplicates(ids)
    modifies studio`steps
    ensures studio.Valid() && HasSteps(studio.View(), ids) && studio.log == old(studio.log)
  {
    for i := 0 to |ids|
      invariant studio.Valid() && HasSteps(studio.View(), ids[..i])
    {
      ghost var before := studio.View();
      var step := studio.AddStep(ids[i], true);
      assert ids[i] !in before.steps && ids[..i + 1] == ids[..i] + [ids[i]];
    }
    assert ids[..|ids|] == ids;
  }

  /** What a load that succeeds leaves behind: the steps of its nodes, the order it computed, which fits them unless
      it warned of a cycle, and the warning exactly when there is one. */
  ghost predicate LoadLeaves(s: StudioView, ids: seq<Id>, edges: seq<Edge>, loaded: NodeLib.Loaded) {
    && s.order == loaded.order && HasSteps(s, ids)
    && (loaded.hasCycle <==> exists v :: OnCycle(edges, v))
    && (!loaded.hasCycle ==> Fits(s, edges))
  }

  /** load_json: whatever ran before is stopped and cleared first, and nothing is started. */
  method LoadDataflow(studio: Studio, lib: NodeLib.Library, nodes: seq<NodeLib.NodeSpec>, mapOrder: seq<Id>)
    returns (r: NodeLib.Result<NodeLib.Loaded, NodeLib.LoadError>)
    requires studio.Valid()
    modifies studio, studio.steps.Values
    ensures studio.Valid() && !studio.running
    ensures studio.log == Cleared(old(studio.View()), mapOrder).log
    ensures r.Ok? ==>
              var edges := NodeLib.GraphEdges(lib, NodeLib.KeyMap(nodes), nodes);
              edges.Ok? && LoadLeaves(studio.View(), NodeLib.Ids(nodes), edges.value, r.value)
  {
    studio.Clear(mapOrder);
    assert studio.View().steps.Keys == studio.steps.Keys;
    r := NodeLib.LoadJson(lib, nodes);
    if r.Err? {
      return;
    }
    NodeLib.CreatedIdsDistinct(lib, nodes);
    AddSteps(studio, NodeLib.Ids(nodes));
    studio.SetTopologyOrder(r.value.order);
    ghost var edges := NodeLib.GraphEdges(lib, NodeLib.KeyMap(nodes), nodes);
    NodeLib.GraphEdgesWithin(lib, NodeLib.KeyMap(nodes), nodes);
    if !r.value.hasCycle {
      LoadedFits(NodeLib.Ids(nodes), edges.value, studio.View());
    }
  }
}
