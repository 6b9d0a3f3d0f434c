/** Whole runs of MessagePath: what on_input has been handed after any interleaving. */
module EndToEnd {
  import opened MessageLine
  import opened MessagePath

  ghost function Exec(w: Wiring, hash: StepId -> nat, events: seq<Event>): State {
    if events == [] then Init(w)
    else
      var s := Exec(w, hash, events[..|events| - 1]);
      if Shape(w, s) then Step(w, hash, s, events[|events| - 1]) else s
  }

  lemma {:induction false} RunKeeps(w: Wiring, hash: StepId -> nat, events: seq<Event>, p: nat)
    requires WellWired(w) && p < |w.listenerOf|
    ensures var s := Exec(w, hash, events);
            Shape(w, s) && PoolHomed(w, hash, s) && PipeInv(w, hash, s, p)
  {
    if events == [] {
      InitInv(w);
    } else {
      var s, e := Exec(w, hash, events[..|events| - 1]), events[|events| - 1];
      RunKeeps(w, hash, events[..|events| - 1], p);
      StepHomed(w, hash, s, e);
      var m := StepMoves(w, hash, s, e, p);
      var t := Step(w, hash, s, e);
      MovesKeepOrder(m, Line(w, hash, s, p), Line(w, hash, t, p), s.lost, t.lost, p, s.pushes[p], t.pushes[p]);
    }
  }

  /** A message of `p` was handed to on_input in push order and at most once, whatever was dropped on the way. */
  ghost predicate HandledInOrder(s: State, p: nat)
    requires p < |s.handled| && p < |s.pushes|
  {
    InPushOrder(s.handled[p], p, s.pushes[p])
  }

  ghost predicate Handled(s: State, p: nat, i: nat)
    requires p < |s.handled|
  {
    Message(p, i) in s.handled[p]
  }

  /** In the pool, in the listener's hand or in the pipe. */
  ghost predicate OnItsWay(w: Wiring, hash: StepId -> nat, s: State, p: nat, i: nat)
    requires Shape(w, s) && p < |w.listenerOf|
  {
    Message(p, i) in InPool(w, hash, s, p) + InHand(w, s, p) + s.rings[p]
  }

  /** End to end, in every interleaving: what on_input has been handed is a duplicate-free subsequence of the
      pushes, in push order, across the switch from inline to pool; and every push is exactly one of handled, still on
      its way, and lost to a stopped pipe, an overflow or the pool. */
  lemma EndToEndOrder(w: Wiring, hash: StepId -> nat, events: seq<Event>, p: nat)
    requires WellWired(w) && p < |w.listenerOf|
    ensures var s := Exec(w, hash, events);
            && Shape(w, s) && HandledInOrder(s, p) && s.handled[p] <= Line(w, hash, s, p)
            && (forall i :: 0 <= i < s.pushes[p] ==>
                  && (Handled(s, p, i) || OnItsWay(w, hash, s, p, i) || Message(p, i) in s.lost)
                  && !(Handled(s, p, i) && OnItsWay(w, hash, s, p, i))
                  && !(Message(p, i) in s.lost && (Handled(s, p, i) || OnItsWay(w, hash, s, p, i))))
  {
    RunKeeps(w, hash, events, p);
    var s := Exec(w, hash, events);
    var rest := InPool(w, hash, s, p) + InHand(w, s, p) + s.rings[p];
    FrontAndRest(s.handled[p], InPool(w, hash, s, p), InHand(w, s, p), s.rings[p]);
    FrontInOrder(s.handled[p], rest, p, s.pushes[p]);
  }

  /** If nothing of pipe `p` was lost, on_input has been handed exactly the first pushes, one by one. */
  lemma LosslessPrefix(w: Wiring, hash: StepId -> nat, events: seq<Event>, p: nat)
    requires WellWired(w) && p < |w.listenerOf|
    requires forall msg :: msg in Exec(w, hash, events).lost ==> msg.pipe != p
    ensures var s := Exec(w, hash, events);
            Shape(w, s) && forall k :: 0 <= k < |s.handled[p]| ==> s.handled[p][k] == Message(p, k)
  {
    RunKeeps(w, hash, events, p);
    var s := Exec(w, hash, events);
    CompleteLine(Line(w, hash, s, p), p, s.pushes[p]);
    EndToEndOrder(w, hash, events, p);
  }

  ghost predicate LostAt(w: Wiring, hash: StepId -> nat, events: seq<Event>, k: nat, msg: Message)
    requires k < |events|
  {
    var s := Exec(w, hash, events[..k]);
    Shape(w, s) && Loses(w, hash, s, events[k], msg)
  }

  /** In every run a message is lost if and only if some event of the run loses it: a push of it on a stopped pipe, a
      push on the full ring it is the oldest message of, or an enqueue of it that is refused or finds the worker's
      queue full. */
  lemma {:induction false} LostIff(w: Wiring, hash: StepId -> nat, events: seq<Event>, msg: Message)
    requires WellWired(w)
    ensures msg in Exec(w, hash, events).lost <==> exists k :: 0 <= k < |events| && LostAt(w, hash, events, k, msg)
  {
    if events != [] {
      var n := |events| - 1;
      var front := events[..n];
      LostIff(w, hash, front, msg);
      RunShape(w, hash, front);
      StepLoses(w, hash, Exec(w, hash, front), events[n], msg);
      LostBefore(w, hash, events, msg);
      assert LostAt(w, hash, events, n, msg) == Loses(w, hash, Exec(w, hash, front), events[n], msg);
    }
  }

  /** Some event of the run loses the message if and only if one before the last does, or the last. */
  lemma LostBefore(w: Wiring, hash: StepId -> nat, events: seq<Event>, msg: Message)
    requires events != []
    ensures var n := |events| - 1;
            var front := events[..n];
            (exists k :: 0 <= k < |events| && LostAt(w, hash, events, k, msg))
            <==> (exists k :: 0 <= k < n && LostAt(w, hash, front, k, msg)) || LostAt(w, hash, events, n, msg)
  {
    var n := |events| - 1;
    var front := events[..n];
    forall k | 0 <= k < n ensures LostAt(w, hash, front, k, msg) == LostAt(w, hash, events, k, msg) {
      assert front[..k] == events[..k];
    }
  }

  lemma {:induction false} RunShape(w: Wiring, hash: StepId -> nat, events: seq<Event>)
    requires WellWired(w)
    ensures Shape(w, Exec(w, hash, events))
  {
    if events == [] {
      InitInv(w);
    } else {
      RunShape(w, hash, events[..|events| - 1]);
      StepShape(w, hash, Exec(w, hash, events[..|events| - 1]), events[|events| - 1]);
    }
  }
}
