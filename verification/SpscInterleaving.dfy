/** sdk/fins/spsc_queue.hpp at the grain of single atomic loads, buffer accesses and stores, driven by one
    producer running Pipe::push (sdk/fins/pipe.hpp:35-51, whose overflow branch pops from the producer side)
    and one consumer running SPSCQueue::pop, interleaved in any way. Atomics are sequentially consistent. */
module SpscInterleaving {
  import opened SpscQueue

  /** Where the producer is; `head` and `tail` are the values it has loaded. `retry` marks the second push. */
  datatype Producer<T> =
    | Idle
    | LoadHead(item: T, retry: bool)
    | LoadTail(item: T, head: nat, retry: bool)
    | WriteSlot(item: T, head: nat)
    | StoreHead(item: T, head: nat)
    | DropLoadTail(item: T)
    | DropLoadHead(item: T, tail: nat, at: nat)
    | DropReadSlot(item: T, tail: nat, at: nat)
    | DropStoreTail(item: T, tail: nat, at: nat)

  /** Where the consumer is. `at` (here and above) is the position tail_ stood for when it was loaded; from the read of
      the slot on it is the position of the item that was read. */
  datatype Consumer<T> =
    | Resting
    | PopLoadTail
    | PopLoadHead(tail: nat, at: nat)
    | PopReadSlot(tail: nat, at: nat)
    | PopStoreTail(tail: nat, at: nat, value: T)

  /** The shared words, both program counters, and the histories. Positions count the published messages. A message is
      taken when a pop of it completes, the consumer's (delivered) or the producer's (dropped). */
  datatype State<T> = State(
    slots: seq<T>, head: nat, tail: nat,
    producer: Producer<T>, consumer: Consumer<T>,
    published: seq<T>, delivered: seq<T>, deliveredAt: seq<nat>, dropped: set<nat>)

  /** The two threads start a call or take the next atomic action of the one they are in. */
  datatype Event<T> = CallPush(item: T) | CallPop | ProducerStep | ConsumerStep

  function Init<T>(capacity: nat, junk: T): State<T> {
    State(seq(capacity + 1, _ => junk), 0, 0, Idle, Resting, [], [], [], {})
  }

  // ---------- positions and slots ----------

  /** The slot of position `i` in a ring of `n` slots: i modulo n. */
  function Slot(i: nat, n: nat): (slot: nat)
    requires n > 0
    ensures slot < n
  {
    if i < n then i else Slot(i - n, n)
  }

  /** The last position below `end` that falls on the slot. */
  function LastIn(slot: nat, end: nat, n: nat): nat
    requires n > 0
  {
    if end == 0 then 0 else if Slot(end - 1, n) == slot then end - 1 else LastIn(slot, end - 1, n)
  }

  /** The position tail_ stands for: the last one in its slot that is not beyond head_. */
  function Oldest<T>(s: State<T>): nat
    requires |s.slots| > 0
  {
    LastIn(s.tail, |s.published| + 1, |s.slots|)
  }

  /** The number of positions written so far; the last of them may not be published yet. */
  function Written<T>(s: State<T>): nat {
    |s.published| + if s.producer.StoreHead? then 1 else 0
  }

  /** The position whose item the slot holds. */
  function Holder<T>(s: State<T>, slot: nat): nat
    requires |s.slots| > 0
  {
    LastIn(slot, Written(s), |s.slots|)
  }

  function Item<T>(s: State<T>, i: nat): T
    requires i < Written(s)
  {
    if i < |s.published| then s.published[i] else s.producer.item
  }

  // ---------- steps ----------

  ghost predicate Shape<T>(s: State<T>) {
    && s.head < |s.slots|
    && s.tail < |s.slots|
    && (s.producer.WriteSlot? || s.producer.StoreHead? ==> s.producer.head == s.head)
    && (s.producer.LoadTail? ==> s.producer.head == s.head)
    && (s.producer.DropLoadHead? || s.producer.DropReadSlot? || s.producer.DropStoreTail?
        ==> s.producer.tail < |s.slots|)
    && (s.consumer.PopLoadHead? || s.consumer.PopReadSlot? || s.consumer.PopStoreTail?
        ==> s.consumer.tail < |s.slots|)
  }

  /** One event. An event of a thread that is busy (a call) or idle (a step) changes nothing. */
  function Step<T>(s: State<T>, e: Event<T>): (s': State<T>)
    requires Shape(s)
    ensures Shape(s') && |s'.slots| == |s.slots|
  {
    match e
    case CallPush(item) => if s.producer.Idle? then s.(producer := LoadHead(item, false)) else s
    case CallPop => if s.consumer.Resting? then s.(consumer := PopLoadTail) else s
    case ProducerStep => StepProducer(s)
    case ConsumerStep => StepConsumer(s)
  }

  function StepProducer<T>(s: State<T>): (s': State<T>)
    requires Shape(s)
    ensures Shape(s') && |s'.slots| == |s.slots|
  {
    match s.producer
    case Idle => s
    case LoadHead(item, retry) => s.(producer := LoadTail(item, s.head, retry))
    case LoadTail(item, head, retry) =>
      if Next(head, |s.slots|) != s.tail then s.(producer := WriteSlot(item, head))
      else if retry then s.(producer := Idle)
      else s.(producer := DropLoadTail(item))
    case WriteSlot(item, head) => s.(slots := s.slots[head := item], producer := StoreHead(item, head))
    case StoreHead(item, head) =>
      s.(head := Next(head, |s.slots|), published := s.published + [item], producer := Idle)
    case DropLoadTail(item) => s.(producer := DropLoadHead(item, s.tail, Oldest(s)))
    case DropLoadHead(item, tail, at) =>
      s.(producer := if tail == s.head then Idle else DropReadSlot(item, tail, at))
    case DropReadSlot(item, tail, _) => s.(producer := DropStoreTail(item, tail, Holder(s, tail)))
    case DropStoreTail(item, tail, at) =>
      s.(tail := Next(tail, |s.slots|), dropped := s.dropped + {at}, producer := LoadHead(item, true))
  }

  function StepConsumer<T>(s: State<T>): (s': State<T>)
    requires Shape(s)
    ensures Shape(s') && |s'.slots| == |s.slots|
  {
    match s.consumer
    case Resting => s
    case PopLoadTail => s.(consumer := PopLoadHead(s.tail, Oldest(s)))
    case PopLoadHead(tail, at) => s.(consumer := if tail == s.head then Resting else PopReadSlot(tail, at))
    case PopReadSlot(tail, _) => s.(consumer := PopStoreTail(tail, Holder(s, tail), s.slots[tail]))
    case PopStoreTail(tail, at, value) =>
      s.(tail := Next(tail, |s.slots|), consumer := Resting,
         delivered := s.delivered + [value], deliveredAt := s.deliveredAt + [at])
  }

  function Exec<T>(s: State<T>, events: seq<Event<T>>): (s': State<T>)
    requires Shape(s)
    ensures Shape(s') && |s'.slots| == |s.slots|
  {
    if events == [] then s else Step(Exec(s, events[..|events| - 1]), events[|events| - 1])
  }

  lemma ExecNext<T>(s: State<T>, events: seq<Event<T>>, k: nat)
    requires Shape(s) && k < |events|
    ensures Exec(s, events[..k + 1]) == Step(Exec(s, events[..k]), events[k])
  {
    assert events[..k + 1][..k] == events[..k];
  }

  // ---------- what positions say about slots ----------

  lemma {:induction false} NextSlot(i: nat, n: nat)
    requires n > 0
    ensures Slot(i + 1, n) == Next(Slot(i, n), n)
  {
    if i >= n {
      NextSlot(i - n, n);
    } else if i + 1 == n {
      assert Slot(i + 1, n) == Slot(0, n);
    }
  }

  /** Two positions closer than the ring length share a slot only if they are the same position. */
  lemma {:induction false} DistinctSlots(i: nat, j: nat, n: nat)
    requires i <= j < i + n
    ensures Slot(i, n) == Slot(j, n) <==> i == j
  {
    if i >= n {
      DistinctSlots(i - n, j - n, n);
    } else if j >= n {
      assert Slot(j, n) == j - n;
    }
  }

  lemma {:induction false} SlotAhead(i: nat, k: nat, n: nat)
    requires k < n
    ensures Slot(i + k, n) == if Slot(i, n) + k < n then Slot(i, n) + k else Slot(i, n) + k - n
  {
    if i >= n {
      SlotAhead(i - n, k, n);
      assert i + k >= n && Slot(i + k, n) == Slot(i - n + k, n);
    }
  }

  lemma {:induction false} SlotAtMost(i: nat, n: nat)
    requires n > 0
    ensures Slot(i, n) <= i
  {
    if i >= n {
      SlotAtMost(i - n, n);
    }
  }

  /** A slot that was reached at all was last reached within the last lap. */
  lemma {:induction false} LastInHolds(slot: nat, end: nat, n: nat)
    requires slot < n && slot < end
    ensures var p := LastIn(slot, end, n); p < end <= p + n && Slot(p, n) == slot
  {
    if Slot(end - 1, n) != slot {
      LastInHolds(slot, end - 1, n);
      var p := LastIn(slot, end - 1, n);
      assert Slot(p + n, n) == Slot(p, n);
    }
  }

  lemma {:induction false} LastInAtLeast(slot: nat, end: nat, n: nat, p: nat)
    requires n > 0 && p < end && Slot(p, n) == slot
    ensures p <= LastIn(slot, end, n) < end
  {
    if p < end - 1 && Slot(end - 1, n) != slot {
      LastInAtLeast(slot, end - 1, n, p);
    }
  }

  /** Within a lap the slot determines the position. */
  lemma LastInIs(slot: nat, end: nat, n: nat, p: nat)
    requires p < end <= p + n && Slot(p, n) == slot
    ensures LastIn(slot, end, n) == p
  {
    LastInAtLeast(slot, end, n, p);
    SlotAtMost(p, n);
    LastInHolds(slot, end, n);
    DistinctSlots(p, LastIn(slot, end, n), n);
  }

  // ---------- what holds in every reachable state ----------

  ghost predicate InSlot<T>(s: State<T>, i: nat)
    requires i < Written(s) && |s.slots| > 0
  {
    s.slots[Slot(i, |s.slots|)] == Item(s, i)
  }

  /** head_ stands for the number of published messages, and the last lap of written positions sits in the slots. */
  ghost predicate RingHolds<T>(s: State<T>) {
    && Shape(s)
    && s.head == Slot(|s.published|, |s.slots|)
    && s.tail <= |s.published|
    && (forall i :: 0 <= i < Written(s) <= i + |s.slots| ==> InSlot(s, i))
  }

  ghost predicate ConsumerKnows<T>(s: State<T>)
    requires |s.slots| > 0
  {
    match s.consumer
    case Resting => true
    case PopLoadTail => true
    case PopLoadHead(tail, at) => tail == Slot(at, |s.slots|) && at <= |s.published|
    case PopReadSlot(tail, at) => tail == Slot(at, |s.slots|) && at < |s.published|
    case PopStoreTail(tail, at, value) =>
      tail == Slot(at, |s.slots|) && tail < |s.published| && at < Written(s) && value == Item(s, at)
  }

  ghost predicate ProducerKnows<T>(s: State<T>)
    requires |s.slots| > 0
  {
    match s.producer
    case DropLoadHead(_, tail, at) => tail == Slot(at, |s.slots|) && at <= |s.published| < at + |s.slots|
    case DropReadSlot(_, tail, at) => tail == Slot(at, |s.slots|) && at < |s.published| < at + |s.slots|
    case DropStoreTail(_, tail, at) => tail == Slot(at, |s.slots|) && at < |s.published| < at + |s.slots|
    case _ => true
  }

  /** What was delivered are the messages of the positions recorded. */
  ghost predicate HistoryTrue<T>(s: State<T>) {
    && |s.delivered| == |s.deliveredAt|
    && (forall k :: 0 <= k < |s.delivered| ==>
          s.deliveredAt[k] < Written(s) && s.delivered[k] == Item(s, s.deliveredAt[k]))
    && (forall i :: i in s.dropped ==> i < |s.published|)
  }

  /** Holds whatever the threads do. */
  ghost predicate Sound<T>(s: State<T>) {
    RingHolds(s) && ConsumerKnows(s) && ProducerKnows(s) && HistoryTrue(s)
  }

  lemma OldestHolds<T>(s: State<T>)
    requires RingHolds(s)
    ensures Oldest(s) <= |s.published| < Oldest(s) + |s.slots| && Slot(Oldest(s), |s.slots|) == s.tail
  {
    LastInHolds(s.tail, |s.published| + 1, |s.slots|);
  }

  lemma OldestIs<T>(s: State<T>, i: nat)
    requires Shape(s) && i <= |s.published| < i + |s.slots| && Slot(i, |s.slots|) == s.tail
    ensures Oldest(s) == i
  {
    LastInIs(s.tail, |s.published| + 1, |s.slots|, i);
  }

  /** The written slot is the one of the position written, and of no other of the last lap. */
  lemma WriteSlotSound<T>(s: State<T>)
    requires Sound(s) && s.producer.WriteSlot?
    ensures Sound(StepProducer(s))
  {
    var t, n := StepProducer(s), |s.slots|;
    forall i | 0 <= i < Written(t) <= i + n ensures InSlot(t, i) {
      DistinctSlots(i, |s.published|, n);
      assert i < |s.published| ==> InSlot(s, i);
    }
  }

  lemma StoreHeadSound<T>(s: State<T>)
    requires Sound(s) && s.producer.StoreHead?
    ensures Sound(StepProducer(s))
  {
    var t := StepProducer(s);
    NextSlot(|s.published|, |s.slots|);
    assert forall i :: 0 <= i < Written(s) ==> Item(t, i) == Item(s, i);
    assert forall i :: 0 <= i < Written(s) && InSlot(s, i) ==> InSlot(t, i);
  }

  lemma ProducerReadSound<T>(s: State<T>, p: Producer<T>)
    requires Sound(s) && !s.producer.StoreHead? && !p.StoreHead?
    requires Shape(s.(producer := p)) && ProducerKnows(s.(producer := p))
    ensures Sound(s.(producer := p))
  {
    var t := s.(producer := p);
    assert forall i :: 0 <= i < Written(s) ==> Item(t, i) == Item(s, i);
    assert forall i :: 0 <= i < Written(s) && InSlot(s, i) ==> InSlot(t, i);
  }

  lemma StoredTail<T>(s: State<T>, at: nat)
    requires RingHolds(s) && Slot(at, |s.slots|) < |s.published|
    ensures Next(Slot(at, |s.slots|), |s.slots|) <= |s.published|
  {
  }

  lemma DropStoreTailSound<T>(s: State<T>)
    requires Sound(s) && s.producer.DropStoreTail?
    ensures Sound(StepProducer(s))
  {
    SlotAtMost(s.producer.at, |s.slots|);
    StoredTail(s, s.producer.at);
    var t := StepProducer(s);
    assert forall i :: 0 <= i < Written(s) ==> Item(t, i) == Item(s, i);
    assert forall i :: 0 <= i < Written(s) && InSlot(s, i) ==> InSlot(t, i);
  }

  lemma ProducerStepSound<T>(s: State<T>)
    requires Sound(s)
    ensures Sound(StepProducer(s))
  {
    match s.producer
    case Idle =>
    case WriteSlot(_, _) => WriteSlotSound(s);
    case StoreHead(_, _) => StoreHeadSound(s);
    case DropStoreTail(_, _, _) => DropStoreTailSound(s);
    case DropLoadTail(_) =>
      OldestHolds(s);
      ProducerReadSound(s, StepProducer(s).producer);
    case DropReadSlot(_, tail, at) =>
      LastInIs(tail, |s.published|, |s.slots|, at);
      ProducerReadSound(s, StepProducer(s).producer);
    case _ => ProducerReadSound(s, StepProducer(s).producer);
  }

  /** The slot that is read holds the item of the position recorded. */
  lemma PopReadSlotSound<T>(s: State<T>)
    requires Sound(s) && s.consumer.PopReadSlot?
    ensures Sound(StepConsumer(s)) && s.consumer.at <= StepConsumer(s).consumer.at
  {
    var t := StepConsumer(s);
    SlotAtMost(s.consumer.at, |s.slots|);
    LastInHolds(s.consumer.tail, Written(s), |s.slots|);
    LastInAtLeast(s.consumer.tail, Written(s), |s.slots|, s.consumer.at);
    assert InSlot(s, t.consumer.at);
    assert forall i :: 0 <= i < Written(s) && InSlot(s, i) ==> InSlot(t, i);
  }

  lemma PopStoreTailSound<T>(s: State<T>)
    requires Sound(s) && s.consumer.PopStoreTail?
    ensures Sound(StepConsumer(s))
  {
    var t := StepConsumer(s);
    assert forall i :: 0 <= i < Written(s) && InSlot(s, i) ==> InSlot(t, i);
  }

  lemma ConsumerStepSound<T>(s: State<T>)
    requires Sound(s)
    ensures Sound(StepConsumer(s))
  {
    var t := StepConsumer(s);
    if s.consumer.PopReadSlot? {
      PopReadSlotSound(s);
    } else if s.consumer.PopStoreTail? {
      PopStoreTailSound(s);
    } else {
      OldestHolds(s);
      assert forall i :: 0 <= i < Written(s) && InSlot(s, i) ==> InSlot(t, i);
    }
  }

  lemma StepSound<T>(s: State<T>, e: Event<T>)
    requires Sound(s)
    ensures Sound(Step(s, e))
  {
    match e
    case CallPush(item) =>
      if s.producer.Idle? {
        ProducerReadSound(s, LoadHead(item, false));
      }
    case CallPop =>
      var t := Step(s, e);
      assert forall i :: 0 <= i < Written(s) && InSlot(s, i) ==> InSlot(t, i);
    case ProducerStep => ProducerStepSound(s);
    case ConsumerStep => ConsumerStepSound(s);
  }

  /** The items a reader of the ring would still get, oldest first. */
  function Pending<T>(s: State<T>): seq<T>
    requires |s.slots| > 0 && Oldest(s) <= |s.published|
  {
    s.published[Oldest(s)..]
  }

  /** The cyclic slots from tail to head hold exactly the pending items. */
  lemma RingContents<T>(s: State<T>)
    requires RingHolds(s)
    ensures Oldest(s) <= |s.published| && Live(s.slots, s.tail, s.head) == Pending(s)
  {
    OldestHolds(s);
    var n, first := |s.slots|, Oldest(s);
    var count := |s.published| - first;
    SlotAhead(first, count, n);
    var live := Live(s.slots, s.tail, s.head);
    assert |live| == count;
    forall k | 0 <= k < count ensures live[k] == s.published[first + k] {
      SlotAhead(first, k, n);
      LiveAt(s.slots, s.tail, s.head, k);
      assert InSlot(s, first + k);
    }
  }

  /** Whatever the threads do, overflow pops and overtaken stores included: the ring reads as the published messages
      from some position on, at most Capacity of them, and every message handed out is one that was pushed. */
  lemma {:induction false} AlwaysSound<T>(capacity: nat, junk: T, events: seq<Event<T>>)
    ensures var s := Exec(Init(capacity, junk), events);
            && Sound(s) && Oldest(s) <= |s.published| && |Pending(s)| <= capacity
            && Live(s.slots, s.tail, s.head) == Pending(s)
  {
    var s := Exec(Init(capacity, junk), events);
    if events != [] {
      var n := |events| - 1;
      AlwaysSound(capacity, junk, events[..n]);
      StepSound(Exec(Init(capacity, junk), events[..n]), events[n]);
    }
    OldestHolds(s);
    RingContents(s);
  }
}
