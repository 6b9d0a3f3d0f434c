/** When the ring of SpscInterleaving stays a FIFO that drops its oldest message: exactly as long as no store to tail_
    is stale. Such runs refine the FIFO action by action, and runs that never overflow are among them. */
module SpscSafety {
  import opened SpscQueue
  import opened SpscInterleaving

  // ---------- the ring holds what was not taken ----------

  predicate Taken<T>(s: State<T>, i: nat) {
    i in s.deliveredAt || i in s.dropped
  }

  /** The ring holds exactly the published messages that were neither delivered nor dropped. */
  ghost predicate HoldsUntaken<T>(s: State<T>)
    requires |s.slots| > 0
  {
    forall i: nat :: Taken(s, i) <==> i < Oldest(s)
  }

  predicate IsTailStore<T>(s: State<T>, e: Event<T>) {
    (e == ConsumerStep && s.consumer.PopStoreTail?) || (e == ProducerStep && s.producer.DropStoreTail?)
  }

  /** The position the store takes, and what it makes of tail_. */
  function Takes<T>(s: State<T>, e: Event<T>): nat
    requires IsTailStore(s, e)
  {
    if e == ConsumerStep then s.consumer.at else s.producer.at
  }

  function StoredTail<T>(s: State<T>, e: Event<T>): nat
    requires Shape(s) && IsTailStore(s, e)
  {
    Next(if e == ConsumerStep then s.consumer.tail else s.producer.tail, |s.slots|)
  }

  /** A store that changes tail_ although the message it takes is not the oldest one in the ring. */
  predicate StaleStore<T>(s: State<T>, e: Event<T>)
    requires Shape(s)
  {
    IsTailStore(s, e) && StoredTail(s, e) != s.tail
    && !(Takes(s, e) == Oldest(s) && Oldest(s) < |s.published|)
  }

  /** From the moment a push has seen room, and from its overflow pop on, there is room. */
  ghost predicate HasRoom<T>(s: State<T>)
    requires |s.slots| > 0
  {
    match s.producer
    case LoadHead(_, retry) => retry ==> |s.published| < Oldest(s) + |s.slots| - 1
    case LoadTail(_, _, retry) => retry ==> |s.published| < Oldest(s) + |s.slots| - 1
    case WriteSlot(_, _) => |s.published| < Oldest(s) + |s.slots| - 1
    case StoreHead(_, _) => |s.published| < Oldest(s) + |s.slots| - 1
    case DropLoadHead(_, _, at) => at <= Oldest(s)
    case _ => true
  }

  /** The next delivery is of this position or a later one. */
  function Floor<T>(s: State<T>): nat
    requires |s.slots| > 0
  {
    match s.consumer
    case Resting => Oldest(s)
    case PopLoadTail => Oldest(s)
    case PopLoadHead(_, at) => at
    case PopReadSlot(_, at) => at
    case PopStoreTail(_, at, _) => at
  }

  /** Deliveries go forward. */
  ghost predicate InOrder<T>(s: State<T>)
    requires |s.slots| > 0
  {
    && (forall j, k :: 0 <= j < k < |s.deliveredAt| ==> s.deliveredAt[j] < s.deliveredAt[k])
    && (forall k :: 0 <= k < |s.deliveredAt| ==> s.deliveredAt[k] < Floor(s))
  }

  ghost predicate Safe<T>(s: State<T>) {
    Sound(s) && HoldsUntaken(s) && HasRoom(s) && InOrder(s)
  }

  lemma InitIsSafe<T>(capacity: nat, junk: T)
    ensures Safe(Init(capacity, junk))
  {
    OldestIs(Init(capacity, junk), 0);
  }

  /** tail_ and head_ agree, modulo the ring, exactly when nothing published is left to remove. */
  lemma FullAndEmpty<T>(s: State<T>)
    requires RingHolds(s)
    ensures Oldest(s) <= |s.published| < Oldest(s) + |s.slots|
    ensures Next(s.head, |s.slots|) == s.tail <==> |s.published| == Oldest(s) + |s.slots| - 1
    ensures s.head == s.tail <==> |s.published| == Oldest(s)
  {
    var n := |s.slots|;
    OldestHolds(s);
    NextSlot(|s.published|, n);
    DistinctSlots(Oldest(s), |s.published|, n);
    if |s.published| + 1 < Oldest(s) + n {
      DistinctSlots(Oldest(s), |s.published| + 1, n);
    }
  }

  // ---------- stores to tail_ ----------

  lemma TailStoreTakes<T>(s: State<T>, e: Event<T>)
    requires Sound(s) && IsTailStore(s, e)
    ensures var t := Step(s, e);
            && t.published == s.published && t.tail == StoredTail(s, e)
            && (forall i: nat :: Taken(t, i) <==> Taken(s, i) || i == Takes(s, e))
  {
  }

  lemma TailStoreKnows<T>(s: State<T>, e: Event<T>)
    requires Sound(s) && IsTailStore(s, e)
    ensures Takes(s, e) < Written(s) && StoredTail(s, e) == Slot(Takes(s, e) + 1, |s.slots|)
    ensures s.producer.DropStoreTail? ==> Written(s) == |s.published|
  {
    NextSlot(Takes(s, e), |s.slots|);
  }

  /** A store that leaves tail_ alone takes a position that was taken before. */
  lemma SameTailTakesOld<T>(s: State<T>, e: Event<T>)
    requires Safe(s) && IsTailStore(s, e) && StoredTail(s, e) == s.tail
    ensures Takes(s, e) < Oldest(s) && Oldest(Step(s, e)) == Oldest(s)
  {
    var n, at, first := |s.slots|, Takes(s, e), Oldest(s);
    OldestHolds(s);
    TailStoreKnows(s, e);
    TailStoreTakes(s, e);
    if at >= first {
      if at + 1 < first + n {
        DistinctSlots(first, at + 1, n);
      }
      assert false;
    }
  }

  /** A store that takes the oldest message moves tail_ to the next position. */
  lemma OldestIsTaken<T>(s: State<T>, e: Event<T>)
    requires Safe(s) && IsTailStore(s, e) && Takes(s, e) == Oldest(s) < |s.published|
    ensures Oldest(Step(s, e)) == Oldest(s) + 1
  {
    OldestHolds(s);
    TailStoreKnows(s, e);
    OldestIs(Step(s, e), Oldest(s) + 1);
  }

  lemma TailStoreHolds<T>(s: State<T>, e: Event<T>)
    requires Safe(s) && IsTailStore(s, e) && !StaleStore(s, e)
    ensures HoldsUntaken(Step(s, e)) && Oldest(s) <= Oldest(Step(s, e)) && Takes(s, e) < Oldest(Step(s, e))
  {
    TailStoreTakes(s, e);
    if StoredTail(s, e) == s.tail {
      SameTailTakesOld(s, e);
    } else {
      OldestIsTaken(s, e);
    }
  }

  lemma DropStoreTailKeeps<T>(s: State<T>)
    requires Safe(s) && s.producer.DropStoreTail? && !StaleStore(s, ProducerStep)
    ensures Safe(StepProducer(s))
  {
    var t := StepProducer(s);
    StepSound(s, ProducerStep);
    TailStoreHolds(s, ProducerStep);
    assert HasRoom(t);
    assert Floor(s) <= Floor(t);
  }

  lemma PopStoreTailKeeps<T>(s: State<T>)
    requires Safe(s) && s.consumer.PopStoreTail? && !StaleStore(s, ConsumerStep)
    ensures Safe(StepConsumer(s))
  {
    var t := StepConsumer(s);
    StepSound(s, ConsumerStep);
    TailStoreHolds(s, ConsumerStep);
    assert HasRoom(t);
    assert t.deliveredAt == s.deliveredAt + [s.consumer.at];
  }

  // ---------- every other step ----------

  lemma SameMemoryHolds<T>(s: State<T>, t: State<T>)
    requires Shape(s) && HoldsUntaken(s)
    requires |t.slots| == |s.slots| && t.tail == s.tail && t.published == s.published
    requires t.deliveredAt == s.deliveredAt && t.dropped == s.dropped
    ensures Oldest(t) == Oldest(s) && HoldsUntaken(t)
  {
    assert forall i: nat :: Taken(t, i) == Taken(s, i);
  }

  lemma StoreHeadKeeps<T>(s: State<T>)
    requires Safe(s) && s.producer.StoreHead?
    ensures Safe(StepProducer(s)) && Oldest(StepProducer(s)) == Oldest(s)
  {
    var t := StepProducer(s);
    StepSound(s, ProducerStep);
    OldestHolds(s);
    OldestIs(t, Oldest(s));
    assert forall i: nat :: Taken(t, i) == Taken(s, i);
  }

  lemma ProducerStepKeeps<T>(s: State<T>)
    requires Safe(s) && !StaleStore(s, ProducerStep)
    ensures Safe(StepProducer(s))
  {
    if s.producer.DropStoreTail? {
      DropStoreTailKeeps(s);
    } else if s.producer.StoreHead? {
      StoreHeadKeeps(s);
    } else {
      StepSound(s, ProducerStep);
      SameMemoryHolds(s, StepProducer(s));
      FullAndEmpty(s);
    }
  }

  lemma ConsumerStepKeeps<T>(s: State<T>)
    requires Safe(s) && !StaleStore(s, ConsumerStep)
    ensures Safe(StepConsumer(s))
  {
    if s.consumer.PopStoreTail? {
      PopStoreTailKeeps(s);
    } else {
      var t := StepConsumer(s);
      StepSound(s, ConsumerStep);
      SameMemoryHolds(s, t);
      if s.consumer.PopReadSlot? {
        PopReadSlotSound(s);
      } else if s.consumer.PopLoadHead? && !t.consumer.PopLoadHead? {
        assert forall k :: 0 <= k < |s.deliveredAt| ==> Taken(s, s.deliveredAt[k]);
      }
    }
  }

  lemma StepKeeps<T>(s: State<T>, e: Event<T>)
    requires Safe(s) && !StaleStore(s, e)
    ensures Safe(Step(s, e))
  {
    match e
    case ProducerStep => ProducerStepKeeps(s);
    case ConsumerStep => ConsumerStepKeeps(s);
    case _ =>
      StepSound(s, e);
      SameMemoryHolds(s, Step(s, e));
  }

  // ---------- the exact condition ----------

  /** A stale store moves tail_ past the oldest message, which nobody took, or back to messages that were taken. */
  lemma StaleStoreEffect<T>(s: State<T>, e: Event<T>)
    requires Safe(s) && StaleStore(s, e)
    ensures var t := Step(s, e);
            && Sound(t) && Oldest(t) != Oldest(s) && Oldest(t) <= |t.published|
            && Live(t.slots, t.tail, t.head) == t.published[Oldest(t)..]
            && (Oldest(t) > Oldest(s) ==> !Taken(t, Oldest(s)))
            && (Oldest(t) < Oldest(s) ==> forall i: nat :: Oldest(t) <= i < Oldest(s) ==> Taken(t, i))
  {
    var t := Step(s, e);
    StepSound(s, e);
    OldestHolds(s);
    OldestHolds(t);
    RingContents(t);
    TailStoreTakes(s, e);
  }

  /** One step: the ring goes on holding exactly the untaken messages if and only if the step is no stale store. */
  lemma StaleStoreIff<T>(s: State<T>, e: Event<T>)
    requires Safe(s)
    ensures StaleStore(s, e) <==> !HoldsUntaken(Step(s, e))
    ensures StaleStore(s, e) <==> !Safe(Step(s, e))
  {
    if StaleStore(s, e) {
      StaleStoreEffect(s, e);
      var t := Step(s, e);
      if Oldest(t) < Oldest(s) {
        assert Taken(t, Oldest(t));
      }
    } else {
      StepKeeps(s, e);
    }
  }

  predicate StaleAt<T>(s: State<T>, events: seq<Event<T>>, k: nat)
    requires Shape(s) && k < |events|
  {
    StaleStore(Exec(s, events[..k]), events[k])
  }

  ghost predicate NoStaleStore<T>(s: State<T>, events: seq<Event<T>>)
    requires Shape(s)
  {
    forall k :: 0 <= k < |events| ==> !StaleAt(s, events, k)
  }

  ghost predicate HoldsThroughout<T>(s: State<T>, events: seq<Event<T>>)
    requires Shape(s)
  {
    forall n :: 0 <= n <= |events| ==> HoldsUntaken(Exec(s, events[..n]))
  }

  lemma StaleAtPrefix<T>(s: State<T>, events: seq<Event<T>>, n: nat, k: nat)
    requires Shape(s) && k < n <= |events|
    ensures StaleAt(s, events[..n], k) == StaleAt(s, events, k)
  {
    assert events[..n][..k] == events[..k];
  }

  lemma NoStaleStorePrefix<T>(s: State<T>, events: seq<Event<T>>, n: nat)
    requires Shape(s) && NoStaleStore(s, events) && n <= |events|
    ensures NoStaleStore(s, events[..n])
  {
    forall k | 0 <= k < n ensures !StaleAt(s, events[..n], k) {
      StaleAtPrefix(s, events, n, k);
    }
  }

  /** After every run without a stale store the ring holds exactly the untaken messages, and deliveries went forward. */
  lemma {:induction false} SafeRun<T>(s: State<T>, events: seq<Event<T>>)
    requires Safe(s) && NoStaleStore(s, events)
    ensures Safe(Exec(s, events))
  {
    if events != [] {
      var n := |events| - 1;
      NoStaleStorePrefix(s, events, n);
      SafeRun(s, events[..n]);
      assert !StaleAt(s, events, n);
      StepKeeps(Exec(s, events[..n]), events[n]);
    }
  }

  lemma NoStaleStoreLast<T>(s: State<T>, events: seq<Event<T>>, n: nat)
    requires Shape(s) && |events| == n + 1 && NoStaleStore(s, events[..n]) && !StaleAt(s, events, n)
    ensures NoStaleStore(s, events)
  {
    forall k | 0 <= k < n ensures !StaleAt(s, events, k) {
      StaleAtPrefix(s, events, n, k);
    }
  }

  /** The first stale store of a run that has one. */
  lemma {:induction false} FirstStaleStore<T>(s: State<T>, events: seq<Event<T>>) returns (k: nat)
    requires Shape(s) && !NoStaleStore(s, events)
    ensures k < |events| && NoStaleStore(s, events[..k]) && StaleAt(s, events, k)
  {
    k := |events| - 1;
    var before := events[..k];
    if !NoStaleStore(s, before) {
      var n := k;
      k := FirstStaleStore(s, before);
      StaleAtPrefix(s, events, n, k);
      assert before[..k] == events[..k];
    } else if !StaleAt(s, events, k) {
      NoStaleStoreLast(s, events, k);
    }
  }

  /** Whole runs: the ring holds exactly the untaken messages throughout if and only if no store is stale. */
  lemma SafeRunIff<T>(s: State<T>, events: seq<Event<T>>)
    requires Safe(s)
    ensures HoldsThroughout(s, events) <==> NoStaleStore(s, events)
  {
    if NoStaleStore(s, events) {
      forall n | 0 <= n <= |events| ensures HoldsUntaken(Exec(s, events[..n])) {
        NoStaleStorePrefix(s, events, n);
        SafeRun(s, events[..n]);
      }
    } else {
      var k := FirstStaleStore(s, events);
      SafeRun(s, events[..k]);
      StaleStoreIff(Exec(s, events[..k]), events[k]);
      ExecNext(s, events, k);
    }
  }

  // ---------- what the actions do to the FIFO ----------

  /** The ring holds the pending items, never more than Capacity, and the slot being written is not the slot being read
      unless tail_ has moved twice since the reader loaded it. */
  lemma RingMeaning<T>(s: State<T>)
    requires Safe(s)
    ensures Oldest(s) <= |s.published| && Live(s.slots, s.tail, s.head) == Pending(s)
    ensures Occupancy(|s.slots|, s.tail, s.head) <= |s.slots| - 1
    ensures s.producer.WriteSlot? && s.consumer.PopReadSlot? && Oldest(s) <= s.consumer.at + 1
            ==> s.producer.head != s.consumer.tail
  {
    RingContents(s);
    OldestHolds(s);
    if s.producer.WriteSlot? && s.consumer.PopReadSlot? && Oldest(s) <= s.consumer.at + 1 {
      DistinctSlots(s.consumer.at, |s.published|, |s.slots|);
    }
  }

  lemma StoreHeadAppends<T>(s: State<T>)
    requires Safe(s) && s.producer.StoreHead?
    ensures Oldest(s) <= |s.published|
    ensures var t := StepProducer(s);
            && Oldest(t) <= |t.published| && |Pending(s)| < |s.slots| - 1
            && Pending(t) == Pending(s) + [s.producer.item]
  {
    StoreHeadKeeps(s);
    OldestHolds(s);
  }

  /** The full test is that of the FIFO, and the second try of a push finds room. */
  lemma LoadTailVerdict<T>(s: State<T>)
    requires Safe(s) && s.producer.LoadTail?
    ensures Oldest(s) <= |s.published|
    ensures StepProducer(s).producer.WriteSlot? <==> |Pending(s)| < |s.slots| - 1
    ensures s.producer.retry ==> StepProducer(s).producer.WriteSlot?
  {
    FullAndEmpty(s);
  }

  /** The overflow pop gives up exactly when there is nothing to pop, its load of tail_ being up to date. */
  lemma DropLoadHeadVerdict<T>(s: State<T>)
    requires Safe(s) && s.producer.DropLoadHead?
    ensures Oldest(s) <= |s.published|
    ensures StepProducer(s).producer.Idle? <==> s.producer.at == Oldest(s) && Pending(s) == []
  {
    OldestHolds(s);
    DistinctSlots(s.producer.at, |s.published|, |s.slots|);
  }

  lemma PopLoadHeadVerdict<T>(s: State<T>)
    requires Safe(s) && s.consumer.PopLoadHead? && s.consumer.at == Oldest(s)
    ensures Oldest(s) <= |s.published|
    ensures StepConsumer(s).consumer.Resting? <==> Pending(s) == []
  {
    OldestHolds(s);
    FullAndEmpty(s);
  }

  /** A store that changes tail_ removes the oldest message, which is the one it took; any other leaves all of them. */
  lemma TailStoreRemoves<T>(s: State<T>, e: Event<T>)
    requires Safe(s) && IsTailStore(s, e) && !StaleStore(s, e)
    ensures var t := Step(s, e);
            && Oldest(s) <= |s.published| && Oldest(t) <= |t.published|
            && (if StoredTail(s, e) == s.tail then Pending(t) == Pending(s)
                else Takes(s, e) == Oldest(s) && Pending(s) != [] && Pending(t) == Pending(s)[1..])
    ensures e == ConsumerStep && StoredTail(s, e) != s.tail ==> Pending(s)[0] == s.consumer.value
  {
    OldestHolds(s);
    TailStoreTakes(s, e);
    if StoredTail(s, e) == s.tail {
      SameTailTakesOld(s, e);
    } else {
      OldestIsTaken(s, e);
      assert e == ConsumerStep ==> s.consumer.value == s.published[s.consumer.at];
    }
  }

  /** Nothing but a store changes the FIFO. */
  lemma OthersKeepPending<T>(s: State<T>, e: Event<T>)
    requires Safe(s) && !(e == ProducerStep && s.producer.StoreHead?) && !IsTailStore(s, e)
    ensures var t := Step(s, e);
            Oldest(s) <= |s.published| && t.published == s.published && Oldest(t) == Oldest(s)
  {
    OldestHolds(s);
    SameMemoryHolds(s, Step(s, e));
  }

  /** Each atomic action refines the plain FIFO: head_'s store appends, a store that changes tail_ removes the oldest
      message, and nothing else matters. */
  lemma StepRefinesFifo<T>(s: State<T>, e: Event<T>)
    requires Safe(s) && !StaleStore(s, e)
    ensures Safe(Step(s, e)) && Oldest(s) <= |s.published|
    ensures var t := Step(s, e);
            && Oldest(t) <= |t.published|
            && if e == ProducerStep && s.producer.StoreHead? then
                 |Pending(s)| < |s.slots| - 1 && Pending(t) == Pending(s) + [s.producer.item]
               else if IsTailStore(s, e) && StoredTail(s, e) != s.tail then
                 Pending(s) != [] && Takes(s, e) == Oldest(s) && Pending(t) == Pending(s)[1..]
                 && (e == ConsumerStep ==> Pending(s)[0] == s.consumer.value)
               else Pending(t) == Pending(s)
  {
    StepKeeps(s, e);
    if e == ProducerStep && s.producer.StoreHead? {
      StoreHeadAppends(s);
    } else if IsTailStore(s, e) {
      TailStoreRemoves(s, e);
    } else {
      OthersKeepPending(s, e);
    }
  }

  /** And the verdicts are those of the FIFO: full, empty for the consumer, and empty for the overflow pop. */
  lemma VerdictsAreFifo<T>(s: State<T>)
    requires Safe(s)
    ensures Oldest(s) <= |s.published|
    ensures s.producer.LoadTail? ==>
              (StepProducer(s).producer.WriteSlot? <==> |Pending(s)| < |s.slots| - 1)
              && (s.producer.retry ==> StepProducer(s).producer.WriteSlot?)
    ensures s.producer.DropLoadHead? ==>
              (StepProducer(s).producer.Idle? <==> s.producer.at == Oldest(s) && Pending(s) == [])
    ensures s.consumer.PopLoadHead? && s.consumer.at == Oldest(s) ==>
              (StepConsumer(s).consumer.Resting? <==> Pending(s) == [])
  {
    OldestHolds(s);
    if s.producer.LoadTail? {
      LoadTailVerdict(s);
    } else if s.producer.DropLoadHead? {
      DropLoadHeadVerdict(s);
    }
    if s.consumer.PopLoadHead? && s.consumer.at == Oldest(s) {
      PopLoadHeadVerdict(s);
    }
  }

  // ---------- lost pushes ----------

  /** A push ends without publishing its message exactly when its overflow pop finds nothing beyond the position it
      loaded, or when its second try finds the ring full. */
  lemma PushLostIff<T>(s: State<T>)
    requires Sound(s) && !s.producer.Idle?
    ensures Oldest(s) <= |s.published|
    ensures var t := StepProducer(s);
            (t.producer.Idle? && t.published == s.published)
            <==> (s.producer.DropLoadHead? && s.producer.at == |s.published|)
                 || (s.producer.LoadTail? && s.producer.retry && |Pending(s)| == |s.slots| - 1)
  {
    FullAndEmpty(s);
    match s.producer
    case DropLoadHead(_, _, at) => DistinctSlots(at, |s.published|, |s.slots|);
    case StoreHead(_, _) => assert |StepProducer(s).published| == |s.published| + 1;
    case _ =>
  }

  /** Before any stale store the first case is the only one, and then the ring is empty. */
  lemma SafePushLostIff<T>(s: State<T>, events: seq<Event<T>>)
    requires Safe(s) && NoStaleStore(s, events) && !Exec(s, events).producer.Idle?
    ensures var t := Exec(s, events);
            && Oldest(t) <= |t.published|
            && ((StepProducer(t).producer.Idle? && StepProducer(t).published == t.published)
                <==> (t.producer.DropLoadHead? && t.producer.at == Oldest(t) && Pending(t) == []))
  {
    var t := Exec(s, events);
    SafeRun(s, events);
    PushLostIff(t);
    VerdictsAreFifo(t);
  }

  // ---------- runs that never take the overflow branch ----------

  predicate OverflowsAt<T>(s: State<T>, events: seq<Event<T>>, k: nat)
    requires Shape(s) && k < |events|
  {
    events[k] == ProducerStep && Exec(s, events[..k]).producer.DropLoadTail?
  }

  ghost predicate NeverOverflows<T>(s: State<T>, events: seq<Event<T>>)
    requires Shape(s)
  {
    forall k :: 0 <= k < |events| ==> !OverflowsAt(s, events, k)
  }

  lemma NeverOverflowsPrefix<T>(s: State<T>, events: seq<Event<T>>, n: nat)
    requires Shape(s) && NeverOverflows(s, events) && n <= |events|
    ensures NeverOverflows(s, events[..n])
  {
    forall k | 0 <= k < n ensures !OverflowsAt(s, events[..n], k) {
      assert events[..n][..k] == events[..k];
      assert !OverflowsAt(s, events, k);
    }
  }

  ghost predicate PlainFifo<T>(s: State<T>)
    requires |s.slots| > 0
  {
    && Oldest(s) <= |s.published|
    && !(s.producer.DropLoadHead? || s.producer.DropReadSlot? || s.producer.DropStoreTail?)
    && (s.consumer.PopLoadHead? || s.consumer.PopReadSlot? || s.consumer.PopStoreTail? ==> s.consumer.at == Oldest(s))
    && (s.consumer.PopStoreTail? ==> Oldest(s) < |s.published|)
    && s.delivered == s.published[..Oldest(s)]
  }

  /** The consumer reads the oldest message: no overflow has taken its slot. */
  lemma PlainRead<T>(s: State<T>)
    requires Safe(s) && PlainFifo(s) && s.consumer.PopReadSlot?
    ensures StepConsumer(s).consumer.at == Oldest(s) < |s.published|
  {
    OldestHolds(s);
    LastInIs(s.consumer.tail, Written(s), |s.slots|, s.consumer.at);
  }

  lemma PlainPop<T>(s: State<T>)
    requires Safe(s) && PlainFifo(s) && s.consumer.PopStoreTail?
    ensures !StaleStore(s, ConsumerStep) && PlainFifo(StepConsumer(s))
  {
    var t := StepConsumer(s);
    TailStoreTakes(s, ConsumerStep);
    OldestIsTaken(s, ConsumerStep);
    assert t.published[..Oldest(t)] == s.published[..Oldest(s)] + [s.published[Oldest(s)]];
  }

  lemma PlainStep<T>(s: State<T>, e: Event<T>)
    requires Safe(s) && PlainFifo(s) && !(e == ProducerStep && s.producer.DropLoadTail?)
    ensures !StaleStore(s, e) && PlainFifo(Step(s, e))
  {
    if e == ConsumerStep && s.consumer.PopStoreTail? {
      PlainPop(s);
    } else if e == ProducerStep && s.producer.StoreHead? {
      StoreHeadKeeps(s);
      assert StepProducer(s).published[..Oldest(s)] == s.published[..Oldest(s)];
    } else {
      OthersKeepPending(s, e);
      if e == ConsumerStep && s.consumer.PopReadSlot? {
        PlainRead(s);
      }
    }
  }

  lemma {:induction false} PlainRun<T>(s: State<T>, events: seq<Event<T>>)
    requires Safe(s) && PlainFifo(s) && NeverOverflows(s, events)
    ensures Safe(Exec(s, events)) && PlainFifo(Exec(s, events))
  {
    if events != [] {
      var n := |events| - 1;
      NeverOverflowsPrefix(s, events, n);
      PlainRun(s, events[..n]);
      assert !OverflowsAt(s, events, n);
      PlainStep(Exec(s, events[..n]), events[n]);
      StepKeeps(Exec(s, events[..n]), events[n]);
    }
  }

  lemma PlainContents<T>(s: State<T>)
    requires Safe(s) && PlainFifo(s)
    ensures s.delivered + Live(s.slots, s.tail, s.head) == s.published
  {
    RingContents(s);
  }

  lemma PlainNeverStale<T>(s: State<T>, events: seq<Event<T>>, k: nat)
    requires Safe(s) && PlainFifo(s) && NeverOverflows(s, events) && k < |events|
    ensures !StaleAt(s, events, k)
  {
    NeverOverflowsPrefix(s, events, k);
    PlainRun(s, events[..k]);
    assert !OverflowsAt(s, events, k);
    PlainStep(Exec(s, events[..k]), events[k]);
  }

  lemma PlainRunNeverStale<T>(s: State<T>, events: seq<Event<T>>)
    requires Safe(s) && PlainFifo(s) && NeverOverflows(s, events)
    ensures NoStaleStore(s, events)
  {
    forall k | 0 <= k < |events| ensures !StaleAt(s, events, k) {
      PlainNeverStale(s, events, k);
    }
  }

  /** Without overflow no tail_ store is ever stale, and the deliveries are always a prefix of the pushes,
      the ring holding exactly the rest. */
  lemma PrefixRun<T>(s: State<T>, events: seq<Event<T>>)
    requires Safe(s) && PlainFifo(s) && NeverOverflows(s, events)
    ensures NoStaleStore(s, events)
    ensures var t := Exec(s, events); t.delivered + Live(t.slots, t.tail, t.head) == t.published
  {
    PlainRunNeverStale(s, events);
    PlainRun(s, events);
    PlainContents(Exec(s, events));
  }
}
