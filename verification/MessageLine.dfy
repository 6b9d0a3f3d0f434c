/** The messages of one pipe in the order of their pushes, and what may happen to such a line: used by MessagePath. */
module MessageLine {
  import opened Sequences

  /** The nth push on a pipe. */
  datatype Message = Message(pipe: nat, index: nat)

  // ---------- the messages of one pipe ----------

  function OfPipe(msgs: seq<Message>, p: nat): (r: seq<Message>) {
    if msgs == [] then []
    else OfPipe(msgs[..|msgs| - 1], p) + if msgs[|msgs| - 1].pipe == p then [msgs[|msgs| - 1]] else []
  }

  lemma {:induction false} OfPipeConcat(a: seq<Message>, b: seq<Message>, p: nat)
    ensures OfPipe(a + b, p) == OfPipe(a, p) + OfPipe(b, p)
  {
    if b == [] {
      assert a + b == a;
    } else {
      OfPipeConcat(a, b[..|b| - 1], p);
      SplitLast(a, b);
      Associates(OfPipe(a, p), OfPipe(b[..|b| - 1], p), if b[|b| - 1].pipe == p then [b[|b| - 1]] else []);
    }
  }

  lemma OfPipeOne(msg: Message, p: nat)
    ensures OfPipe([msg], p) == if msg.pipe == p then [msg] else []
  {
    assert OfPipe([msg][..0], p) == [];
  }

  lemma HeadTaken(queue: seq<Message>, p: nat)
    requires queue != []
    ensures OfPipe([queue[0]], p) + OfPipe(queue[1..], p) == OfPipe([], p) + OfPipe(queue, p)
  {
    OfPipeConcat([queue[0]], queue[1..], p);
    assert queue == [queue[0]] + queue[1..];
  }

  lemma TailQueued(inFlight: seq<Message>, queue: seq<Message>, hand: seq<Message>, p: nat)
    ensures OfPipe(inFlight, p) + OfPipe(queue + hand, p) == OfPipe(inFlight, p) + OfPipe(queue, p) + OfPipe(hand, p)
  {
    OfPipeConcat(queue, hand, p);
  }

  lemma Regroup(a: seq<Message>, b: seq<Message>, c: seq<Message>, d: seq<Message>)
    ensures a + b + c + d == (a + b) + (c + d)
  {
  }

  lemma HandEmptied(handled: seq<Message>, pool: seq<Message>, hand: seq<Message>, ring: seq<Message>)
    ensures handled + (pool + hand) + [] + ring == handled + pool + hand + ring
  {
  }

  lemma HandLost(front: seq<Message>, msg: Message, ring: seq<Message>)
    ensures (front + [msg] + ring)[|front|] == msg
    ensures front + [] + ring == WithoutAt(front + [msg] + ring, |front|)
  {
  }

  lemma RingReplaces(front: seq<Message>, ring: seq<Message>, msg: Message)
    requires ring != []
    ensures (front + ring)[|front|] == ring[0]
    ensures front + (ring[1..] + [msg]) == WithoutAt(front + ring, |front|) + [msg]
  {
  }

  /** on_input takes the message from the hand, past a pool that is empty then. */
  lemma RunsFromHand(handled: seq<Message>, pool: seq<Message>, msg: Message, own: bool, ring: seq<Message>)
    requires own ==> pool == []
    ensures (if own then handled + [msg] else handled) + pool + [] + ring
            == handled + pool + (if own then [msg] else []) + ring
  {
  }

  // ---------- push order ----------

  /** Messages of `p` in strictly increasing push order, all before `bound`. */
  ghost predicate InPushOrder(msgs: seq<Message>, p: nat, bound: nat) {
    && (forall k :: 0 <= k < |msgs| ==> msgs[k].pipe == p && msgs[k].index < bound)
    && (forall j, k :: 0 <= j < k < |msgs| ==> msgs[j].index < msgs[k].index)
  }

  /** What a step may do to a line: nothing; lose the kth message; take in the next push at the end; take it in
      for the kth message lost; or lose the next push itself. */
  datatype Move = Keep | Lose(k: nat) | Append | Replace(k: nat) | Refuse

  ghost predicate Moved(m: Move, before: seq<Message>, after: seq<Message>, lost: set<Message>, lost': set<Message>,
                        p: nat, bound: nat, bound': nat)
  {
    match m
    case Keep => after == before && LostGrows(lost, lost', p, {}) && bound' == bound
    case Lose(k) =>
      k < |before| && after == WithoutAt(before, k) && LostGrows(lost, lost', p, {before[k]}) && bound' == bound
    case Append => after == before + [Message(p, bound)] && LostGrows(lost, lost', p, {}) && bound' == bound + 1
    case Replace(k) =>
      k < |before| && after == WithoutAt(before, k) + [Message(p, bound)] && LostGrows(lost, lost', p, {before[k]})
      && bound' == bound + 1
    case Refuse => after == before && LostGrows(lost, lost', p, {Message(p, bound)}) && bound' == bound + 1
  }

  function WithoutAt(msgs: seq<Message>, k: nat): seq<Message>
    requires k < |msgs|
  {
    msgs[..k] + msgs[k + 1..]
  }

  /** Of pipe `p`, exactly these messages are newly lost. */
  ghost predicate LostGrows(lost: set<Message>, lost': set<Message>, p: nat, more: set<Message>) {
    forall m: Message :: m.pipe == p ==> (m in lost' <==> m in lost || m in more)
  }

  /** Every push is on the line or lost, and not both; and nothing is lost that was not pushed. */
  ghost predicate Partitioned(msgs: seq<Message>, lost: set<Message>, p: nat, bound: nat) {
    && (forall i :: 0 <= i < bound ==> (Message(p, i) in msgs <==> Message(p, i) !in lost))
    && (forall m :: m in lost && m.pipe == p ==> m.index < bound)
  }

  lemma WithoutMembers(before: seq<Message>, k: nat, p: nat, bound: nat)
    requires k < |before| && InPushOrder(before, p, bound)
    ensures InPushOrder(WithoutAt(before, k), p, bound)
    ensures forall m :: m in WithoutAt(before, k) <==> m in before && m != before[k]
  {
    var after := WithoutAt(before, k);
    forall m | m in before && m != before[k] ensures m in after {
      var j :| 0 <= j < |before| && before[j] == m;
      assert after[if j < k then j else j - 1] == m;
    }
    forall m | m in after ensures m in before && m != before[k] {
      var j :| 0 <= j < |after| && after[j] == m;
      assert before[if j < k then j else j + 1] == m;
    }
  }

  lemma LosingKeeps(before: seq<Message>, k: nat, lost: set<Message>, lost': set<Message>, p: nat, bound: nat)
    requires k < |before| && LostGrows(lost, lost', p, {before[k]})
    requires InPushOrder(before, p, bound) && Partitioned(before, lost, p, bound)
    ensures InPushOrder(WithoutAt(before, k), p, bound) && Partitioned(WithoutAt(before, k), lost', p, bound)
  {
    WithoutMembers(before, k, p, bound);
  }

  lemma AppendingKeeps(before: seq<Message>, lost: set<Message>, p: nat, bound: nat)
    requires InPushOrder(before, p, bound) && Partitioned(before, lost, p, bound)
    ensures InPushOrder(before + [Message(p, bound)], p, bound + 1)
    ensures Partitioned(before + [Message(p, bound)], lost, p, bound + 1)
  {
    var after := before + [Message(p, bound)];
    assert forall m :: m in after <==> m in before || m == Message(p, bound);
  }

  lemma RefusingKeeps(before: seq<Message>, lost: set<Message>, lost': set<Message>, p: nat, bound: nat)
    requires InPushOrder(before, p, bound) && Partitioned(before, lost, p, bound)
    requires LostGrows(lost, lost', p, {Message(p, bound)})
    ensures InPushOrder(before, p, bound + 1) && Partitioned(before, lost', p, bound + 1)
  {
  }

  lemma SameLostKeeps(before: seq<Message>, lost: set<Message>, lost': set<Message>, p: nat, bound: nat)
    requires Partitioned(before, lost, p, bound) && LostGrows(lost, lost', p, {})
    ensures Partitioned(before, lost', p, bound)
  {
  }

  /** The allowed moves keep the line in push order, and every push on the line or lost. */
  lemma MovesKeepOrder(m: Move, before: seq<Message>, after: seq<Message>, lost: set<Message>, lost': set<Message>,
                       p: nat, bound: nat, bound': nat)
    requires Moved(m, before, after, lost, lost', p, bound, bound')
    requires InPushOrder(before, p, bound) && Partitioned(before, lost, p, bound)
    ensures InPushOrder(after, p, bound') && Partitioned(after, lost', p, bound')
  {
    match m
    case Keep => SameLostKeeps(before, lost, lost', p, bound);
    case Lose(k) => LosingKeeps(before, k, lost, lost', p, bound);
    case Append =>
      SameLostKeeps(before, lost, lost', p, bound);
      AppendingKeeps(before, lost', p, bound);
    case Replace(k) =>
      LosingKeeps(before, k, lost, lost', p, bound);
      AppendingKeeps(WithoutAt(before, k), lost', p, bound);
    case Refuse => RefusingKeeps(before, lost, lost', p, bound);
  }

  lemma {:induction false} FewerThanPushed(msgs: seq<Message>, p: nat, bound: nat)
    requires InPushOrder(msgs, p, bound)
    ensures |msgs| <= bound
  {
    if msgs != [] {
      FewerThanPushed(msgs[..|msgs| - 1], p, msgs[|msgs| - 1].index);
    }
  }

  /** In an increasing line that covers every push before `bound`, the last push comes last. */
  lemma LastIsLast(msgs: seq<Message>, p: nat, bound: nat)
    requires bound > 0 && InPushOrder(msgs, p, bound) && Partitioned(msgs, {}, p, bound)
    ensures msgs != [] && msgs[|msgs| - 1] == Message(p, bound - 1)
    ensures InPushOrder(msgs[..|msgs| - 1], p, bound - 1)
  {
    assert Message(p, bound - 1) in msgs;
    var j :| 0 <= j < |msgs| && msgs[j] == Message(p, bound - 1);
    assert msgs[j].index <= msgs[|msgs| - 1].index;
  }

  lemma {:induction false} CompleteLine(msgs: seq<Message>, p: nat, bound: nat)
    requires InPushOrder(msgs, p, bound) && Partitioned(msgs, {}, p, bound)
    ensures |msgs| == bound && forall k :: 0 <= k < bound ==> msgs[k] == Message(p, k)
  {
    FewerThanPushed(msgs, p, bound);
    if bound > 0 {
      LastIsLast(msgs, p, bound);
      var front := msgs[..|msgs| - 1];
      forall i | 0 <= i < bound - 1 ensures Message(p, i) in front {
        assert Message(p, i) in msgs;
        assert Message(p, i) != msgs[|msgs| - 1];
      }
      CompleteLine(front, p, bound - 1);
    }
  }

  lemma FrontAndRest(a: seq<Message>, b: seq<Message>, c: seq<Message>, d: seq<Message>)
    ensures a + b + c + d == a + (b + c + d)
  {
  }

  /** A line in push order has its front in push order, and no message both in the front and in the rest. */
  lemma FrontInOrder(front: seq<Message>, rest: seq<Message>, p: nat, bound: nat)
    requires InPushOrder(front + rest, p, bound)
    ensures InPushOrder(front, p, bound)
    ensures forall m :: m in front + rest <==> m in front || m in rest
    ensures forall m :: m in front ==> m !in rest
  {
    var line := front + rest;
    assert forall k :: 0 <= k < |front| ==> line[k] == front[k];
    forall m | m in front ensures m !in rest {
      var j :| 0 <= j < |front| && front[j] == m;
      forall k | 0 <= k < |rest| ensures rest[k] != m {
        assert line[j].index < line[|front| + k].index;
      }
    }
  }
}
