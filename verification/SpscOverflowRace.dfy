/** Runs on which the overflow branch goes wrong. Pipe::push pops from the producer side when the ring is full
    (sdk/fins/pipe.hpp:40-45), so tail_ has two writers. SpscSafety says which of their stores are stale; here are runs
    with such stores, and with lost pushes, for every capacity. */
module SpscOverflowRace {
  import opened SpscQueue
  import opened SpscInterleaving
  import opened SpscSafety

  /** Some interleaving leads from `s` to `t`. */
  ghost predicate Reaches<T(!new)>(s: State<T>, t: State<T>)
    requires Shape(s)
  {
    exists events: seq<Event<T>> :: Exec(s, events) == t
  }

  lemma Here<T(!new)>(s: State<T>)
    requires Shape(s)
    ensures Reaches(s, s)
  {
    assert Exec(s, []) == s;
  }

  lemma Go<T(!new)>(s: State<T>, t: State<T>, e: Event<T>)
    requires Shape(s) && Shape(t) && Reaches(s, t)
    ensures Reaches(s, Step(t, e))
  {
    var events :| Exec(s, events) == t;
    assert (events + [e])[..|events + [e]| - 1] == events;
    assert Exec(s, events + [e]) == Step(t, e);
  }

  ghost predicate AtRest<T>(s: State<T>) {
    s.producer.Idle? && s.consumer.Resting?
  }

  ghost predicate Full<T>(s: State<T>) {
    Safe(s) && |s.slots| > 1 && |s.published| == Oldest(s) + |s.slots| - 1
  }

  // ---------- whole calls ----------

  /** Appending `item` the way a whole successful push does. */
  function Appended<T>(s: State<T>, item: T): State<T>
    requires Shape(s)
  {
    s.(slots := s.slots[s.head := item], head := Next(s.head, |s.slots|), published := s.published + [item])
  }

  /** The four actions of a try that finds room. */
  lemma TryRuns<T(!new)>(s0: State<T>, s: State<T>)
    requires Shape(s0) && Shape(s) && Reaches(s0, s)
    requires s.producer.LoadHead? && Next(s.head, |s.slots|) != s.tail
    ensures Reaches(s0, Appended(s, s.producer.item).(producer := Idle))
  {
    var item := s.producer.item;
    Go(s0, s, ProducerStep);
    var s1 := s.(producer := LoadTail(item, s.head, s.producer.retry));
    Go(s0, s1, ProducerStep);
    var s2 := s.(producer := WriteSlot(item, s.head));
    Go(s0, s2, ProducerStep);
    var s3 := s.(slots := s.slots[s.head := item], producer := StoreHead(item, s.head));
    Go(s0, s3, ProducerStep);
  }

  lemma PushRuns<T(!new)>(s0: State<T>, s: State<T>, item: T)
    requires Shape(s0) && Shape(s) && Reaches(s0, s)
    requires s.producer.Idle? && Next(s.head, |s.slots|) != s.tail
    ensures Reaches(s0, Appended(s, item))
  {
    Go(s0, s, CallPush(item));
    TryRuns(s0, s.(producer := LoadHead(item, false)));
  }

  /** A push that finds the ring full, and comes to its overflow pop. */
  lemma FullPushRuns<T(!new)>(s0: State<T>, s: State<T>, item: T)
    requires Shape(s0) && Shape(s) && s.producer.Idle? && Next(s.head, |s.slots|) == s.tail && Reaches(s0, s)
    ensures Reaches(s0, s.(producer := DropLoadTail(item)))
  {
    Go(s0, s, CallPush(item));
    Go(s0, s.(producer := LoadHead(item, false)), ProducerStep);
    Go(s0, s.(producer := LoadTail(item, s.head, false)), ProducerStep);
  }

  /** The loads of an overflow pop that finds an item: only its tail_ store is to come. */
  lemma OverflowLoadsRun<T(!new)>(s0: State<T>, s: State<T>, item: T)
    requires Shape(s0) && Shape(s) && s.producer == DropLoadTail(item) && s.head != s.tail && Reaches(s0, s)
    ensures Reaches(s0, s.(producer := DropStoreTail(item, s.tail, Holder(s, s.tail))))
  {
    Go(s0, s, ProducerStep);
    Go(s0, s.(producer := DropLoadHead(item, s.tail, Oldest(s))), ProducerStep);
    Go(s0, s.(producer := DropReadSlot(item, s.tail, Oldest(s))), ProducerStep);
  }

  lemma FullPushLoadsRun<T(!new)>(s0: State<T>, s: State<T>, item: T)
    requires Shape(s0) && Shape(s) && s.producer.Idle? && Next(s.head, |s.slots|) == s.tail && Reaches(s0, s)
    requires s.head != s.tail
    ensures Reaches(s0, s.(producer := DropStoreTail(item, s.tail, Holder(s, s.tail))))
  {
    FullPushRuns(s0, s, item);
    OverflowLoadsRun(s0, s.(producer := DropLoadTail(item)), item);
  }

  /** The tail_ store of an overflow pop that loaded tail_ just now. */
  function Dropped<T>(s: State<T>): State<T>
    requires Shape(s)
  {
    s.(tail := Next(s.tail, |s.slots|), dropped := s.dropped + {Holder(s, s.tail)})
  }

  lemma OverflowPushRuns<T(!new)>(s0: State<T>, s: State<T>, item: T)
    requires Shape(s0) && Shape(s) && Reaches(s0, s) && s.producer.Idle?
    requires Next(s.head, |s.slots|) == s.tail && s.head != s.tail && Next(s.head, |s.slots|) != Next(s.tail, |s.slots|)
    ensures Reaches(s0, Appended(Dropped(s), item))
  {
    FullPushLoadsRun(s0, s, item);
    Go(s0, s.(producer := DropStoreTail(item, s.tail, Holder(s, s.tail))), ProducerStep);
    TryRuns(s0, Dropped(s).(producer := LoadHead(item, true)));
  }

  /** The three loads of a pop that finds an item; its tail_ store is still to come. */
  function PopLoaded<T>(s: State<T>): State<T>
    requires Shape(s)
  {
    s.(consumer := PopStoreTail(s.tail, Holder(s, s.tail), s.slots[s.tail]))
  }

  lemma PopLoadsRun<T(!new)>(s0: State<T>, s: State<T>)
    requires Shape(s0) && Shape(s) && Reaches(s0, s)
    requires s.consumer.Resting? && s.tail != s.head
    ensures Reaches(s0, PopLoaded(s))
  {
    Go(s0, s, CallPop);
    Go(s0, s.(consumer := PopLoadTail), ConsumerStep);
    Go(s0, s.(consumer := PopLoadHead(s.tail, Oldest(s))), ConsumerStep);
    Go(s0, s.(consumer := PopReadSlot(s.tail, Oldest(s))), ConsumerStep);
  }

  /** What a whole pop of a non-empty ring does when nobody else moves. */
  function Popped<T>(s: State<T>): State<T>
    requires Shape(s)
  {
    s.(tail := Next(s.tail, |s.slots|),
       delivered := s.delivered + [s.slots[s.tail]], deliveredAt := s.deliveredAt + [Holder(s, s.tail)])
  }

  lemma PopRuns<T(!new)>(s0: State<T>, s: State<T>)
    requires Shape(s0) && Shape(s) && Reaches(s0, s)
    requires s.consumer.Resting? && s.tail != s.head
    ensures Reaches(s0, Popped(s))
  {
    PopLoadsRun(s0, s);
    Go(s0, PopLoaded(s), ConsumerStep);
  }

  // ---------- whole calls are safe ----------

  lemma MoveProducer<T>(s: State<T>, p: Producer<T>)
    requires Safe(s) && !s.producer.StoreHead? && !p.StoreHead?
    requires var t := s.(producer := p); Shape(t) && ProducerKnows(t) && HasRoom(t)
    ensures Safe(s.(producer := p)) && Oldest(s.(producer := p)) == Oldest(s)
  {
    ProducerReadSound(s, p);
    SameMemoryHolds(s, s.(producer := p));
  }

  /** Appending to a ring with room. */
  lemma AppendedKeeps<T>(s: State<T>, item: T)
    requires Safe(s) && s.producer.Idle? && |s.published| < Oldest(s) + |s.slots| - 1
    ensures Next(s.head, |s.slots|) != s.tail
    ensures Safe(Appended(s, item)) && Oldest(Appended(s, item)) == Oldest(s)
  {
    FullAndEmpty(s);
    var s1 := s.(producer := WriteSlot(item, s.head));
    MoveProducer(s, s1.producer);
    var s2 := StepProducer(s1);
    ProducerStepKeeps(s1);
    StoreHeadKeeps(s2);
    assert StepProducer(s2) == Appended(s, item);
  }

  /** What a pop would take now is the oldest message. */
  lemma HolderIsOldest<T>(s: State<T>)
    requires Safe(s) && Oldest(s) < |s.published|
    ensures Holder(s, s.tail) == Oldest(s) && s.tail != s.head && s.slots[s.tail] == s.published[Oldest(s)]
  {
    FullAndEmpty(s);
    OldestHolds(s);
    LastInIs(s.tail, Written(s), |s.slots|, Oldest(s));
    assert InSlot(s, Oldest(s));
  }

  lemma DroppedKeeps<T>(s: State<T>, item: T)
    requires Full(s) && s.producer.Idle?
    ensures Next(s.head, |s.slots|) == s.tail && s.head != s.tail
    ensures var t := Dropped(s);
            && Safe(t) && Oldest(t) == Oldest(s) + 1 && t.dropped == s.dropped + {Oldest(s)}
            && Next(t.head, |t.slots|) != t.tail
  {
    FullAndEmpty(s);
    HolderIsOldest(s);
    OldestHolds(s);
    var s1 := s.(producer := DropStoreTail(item, s.tail, Oldest(s)));
    MoveProducer(s, s1.producer);
    OldestIsTaken(s1, ProducerStep);
    DropStoreTailKeeps(s1);
    MoveProducer(StepProducer(s1), Idle);
    assert StepProducer(s1).(producer := Idle) == Dropped(s);
    FullAndEmpty(Dropped(s));
  }

  lemma PopLoadedKeeps<T>(s: State<T>)
    requires Safe(s) && s.consumer.Resting? && Oldest(s) < |s.published|
    ensures Safe(PopLoaded(s)) && Oldest(PopLoaded(s)) == Oldest(s) && PopLoaded(s).consumer.at == Oldest(s)
  {
    HolderIsOldest(s);
    var s1 := Step(s, CallPop);
    StepKeeps(s, CallPop);
    var s2 := StepConsumer(s1);
    ConsumerStepKeeps(s1);
    var s3 := StepConsumer(s2);
    ConsumerStepKeeps(s2);
    ConsumerStepKeeps(s3);
    assert StepConsumer(s3) == PopLoaded(s);
  }

  lemma PoppedKeeps<T>(s: State<T>)
    requires Safe(s) && s.consumer.Resting? && Oldest(s) < |s.published|
    ensures Safe(Popped(s)) && Oldest(Popped(s)) == Oldest(s) + 1
  {
    PopLoadedKeeps(s);
    OldestIsTaken(PopLoaded(s), ConsumerStep);
    PopStoreTailKeeps(PopLoaded(s));
    assert StepConsumer(PopLoaded(s)) == Popped(s);
  }

  // ---------- a full ring is reachable ----------

  ghost predicate Filled<T>(s: State<T>, capacity: nat, items: seq<T>) {
    && Safe(s) && AtRest(s) && |s.slots| == capacity + 1
    && s.published == items && Oldest(s) == 0 && s.delivered == [] && s.deliveredAt == [] && s.dropped == {}
  }

  /** Pushing up to Capacity messages from the start leaves just them in the ring. */
  lemma {:induction false} FillRing<T(!new)>(capacity: nat, junk: T, items: seq<T>) returns (t: State<T>)
    requires |items| <= capacity
    ensures Filled(t, capacity, items) && Reaches(Init(capacity, junk), t)
  {
    var s0 := Init(capacity, junk);
    if items == [] {
      t := s0;
      Here(t);
      InitIsSafe(capacity, junk);
    } else {
      var last := |items| - 1;
      var before := FillRing(capacity, junk, items[..last]);
      AppendedKeeps(before, items[last]);
      PushRuns(s0, before, items[last]);
      t := Appended(before, items[last]);
    }
  }

  // ---------- stale stores: messages vanish ----------

  lemma OneOverflowRuns<T(!new)>(s0: State<T>, s: State<T>, item: T) returns (t: State<T>)
    requires Shape(s0) && Full(s) && s.producer.Idle? && Reaches(s0, s)
    ensures Full(t) && Reaches(s0, t) && |t.slots| == |s.slots| && Oldest(t) == Oldest(s) + 1
    ensures t.producer.Idle? && t.consumer == s.consumer && t.published == s.published + [item]
    ensures t.deliveredAt == s.deliveredAt && t.dropped == s.dropped + {Oldest(s)}
  {
    DroppedKeeps(s, item);
    AppendedKeeps(Dropped(s), item);
    OverflowPushRuns(s0, s, item);
    t := Appended(Dropped(s), item);
  }

  /** The messages at these positions are gone: not in the ring, never delivered, never counted as dropped. */
  ghost predicate Vanished<T>(s: State<T>, from: nat)
    requires Shape(s)
  {
    && Live(s.slots, s.tail, s.head) == []
    && (forall i: nat :: from <= i < |s.published| ==> !Taken(s, i))
  }

  /** A full ring, and a consumer that has taken the first message and is about to store tail_. */
  lemma FullAndPopping<T(!new)>(capacity: nat, junk: T, items: seq<T>) returns (t: State<T>)
    requires |items| == capacity > 0
    ensures Full(t) && Reaches(Init(capacity, junk), t) && |t.slots| == capacity + 1 && t.published == items
    ensures t.producer.Idle? && t.consumer == PopStoreTail(0, 0, items[0]) && Oldest(t) == 0
    ensures t.deliveredAt == [] && t.dropped == {}
  {
    var s := FillRing(capacity, junk, items);
    HolderIsOldest(s);
    OldestHolds(s);
    PopLoadsRun(Init(capacity, junk), s);
    PopLoadedKeeps(s);
    t := PopLoaded(s);
  }

  /** Two overflow pushes between a consumer's loads and its tail_ store: the store moves tail_ back onto head_,
      the ring reads as empty, and all the Capacity messages it held have vanished. */
  lemma BacklogLost<T(!new)>(capacity: nat, junk: T, items: seq<T>, item: T) returns (t: State<T>)
    requires |items| == capacity > 0
    ensures Reaches(Init(capacity, junk), t)
    ensures AtRest(t) && |t.published| == capacity + 2 && Vanished(t, 2)
  {
    var s0 := Init(capacity, junk);
    var s1 := FullAndPopping(capacity, junk, items);
    var s2 := OneOverflowRuns(s0, s1, item);
    var s3 := OneOverflowRuns(s0, s2, item);
    Go(s0, s3, ConsumerStep);
    t := StepConsumer(s3);
    StoreOntoHead(s3, items[0]);
  }

  /** The stale store comes out at head_, two positions further. */
  lemma StoreOntoHead<T>(s: State<T>, value: T)
    requires Shape(s) && |s.slots| > 1 && s.head == Slot(|s.slots| + 1, |s.slots|)
    requires s.consumer == PopStoreTail(0, 0, value)
    requires s.deliveredAt == [] && s.dropped == {0, 1}
    ensures Vanished(StepConsumer(s), 2)
  {
    assert s.head == Slot(1, |s.slots|) == 1;
  }

  // ---------- stale stores: messages are delivered twice ----------

  /** Two pops between the producer's overflow loads and its tail_ store: the store moves tail_ back, and the
      next pop hands out a message that was delivered already. One overflow is enough. */
  lemma DuplicateDelivered<T(!new)>(capacity: nat, junk: T, items: seq<T>, item: T) returns (t: State<T>)
    requires |items| == capacity > 1
    ensures Reaches(Init(capacity, junk), t)
    ensures t.published == items && t.delivered == [items[0], items[1], items[1]]
  {
    var s0, n := Init(capacity, junk), capacity + 1;
    var s := FillRing(capacity, junk, items);
    FullAndEmpty(s);
    OldestHolds(s);
    assert InSlot(s, 0) && InSlot(s, 1);
    FullPushLoadsRun(s0, s, item);
    var s1 := s.(producer := DropStoreTail(item, s.tail, Holder(s, s.tail)));
    PopRuns(s0, s1);
    PopRuns(s0, Popped(s1));
    t := OldStoreThenPopRuns(s0, Popped(Popped(s1)));
    assert [items[0]] + [items[1]] + [items[1]] == [items[0], items[1], items[1]];
  }

  /** The store of an overflow pop from an old load, and a pop. */
  lemma OldStoreThenPopRuns<T(!new)>(s0: State<T>, s: State<T>) returns (t: State<T>)
    requires Shape(s0) && Shape(s) && Reaches(s0, s) && s.consumer.Resting? && s.producer.DropStoreTail?
    requires Next(s.producer.tail, |s.slots|) != s.head
    ensures Reaches(s0, t) && t.published == s.published
    ensures t.delivered == s.delivered + [s.slots[Next(s.producer.tail, |s.slots|)]]
  {
    Go(s0, s, ProducerStep);
    PopRuns(s0, StepProducer(s));
    t := Popped(StepProducer(s));
  }

  // ---------- lost pushes ----------

  /** `k` whole pops, wherever the producer stands. */
  lemma {:induction false} PopsRun<T(!new)>(s0: State<T>, s: State<T>, k: nat) returns (t: State<T>)
    requires Shape(s0) && Safe(s) && s.consumer.Resting? && Oldest(s) + k <= |s.published| && Reaches(s0, s)
    ensures Safe(t) && Reaches(s0, t) && Oldest(t) == Oldest(s) + k
    ensures t == s.(tail := t.tail, delivered := t.delivered, deliveredAt := t.deliveredAt)
  {
    if k == 0 {
      t := s;
    } else {
      var u := PopsRun(s0, s, k - 1);
      PoppedKeeps(u);
      HolderIsOldest(u);
      PopRuns(s0, u);
      t := Popped(u);
    }
  }

  /** For every capacity: the producer finds the ring full, the consumer then empties it, and the push comes back
      without its item in the ring, which is empty, or anywhere else. */
  lemma PushLostOnEmptyRing<T(!new)>(capacity: nat, junk: T, items: seq<T>, item: T)
    returns (before: State<T>, t: State<T>)
    requires |items| == capacity > 0
    ensures Reaches(Init(capacity, junk), before) && before.producer == DropLoadTail(item)
    ensures Reaches(Init(capacity, junk), t) && t == StepProducer(StepProducer(before))
    ensures AtRest(t) && t.published == items && t.dropped == {} && Live(t.slots, t.tail, t.head) == []
  {
    var s0 := Init(capacity, junk);
    var s := FillRing(capacity, junk, items);
    FullAndEmpty(s);
    FullPushRuns(s0, s, item);
    MoveProducer(s, DropLoadTail(item));
    before := PopsRun(s0, s.(producer := DropLoadTail(item)), capacity);
    FullAndEmpty(before);
    Go(s0, before, ProducerStep);
    var s1 := before.(producer := DropLoadHead(item, before.tail, Oldest(before)));
    Go(s0, s1, ProducerStep);
    t := StepProducer(s1);
  }

  /** For every capacity: a stale store undoes an overflow pop, the second try of that push finds the ring full, and
      the push comes back without its item although it had made room. */
  lemma PushLostOnFullRing<T(!new)>(capacity: nat, junk: T, items: seq<T>, item: T)
    returns (before: State<T>, t: State<T>)
    requires |items| == capacity > 0
    ensures Reaches(Init(capacity, junk), before) && before.producer == LoadTail(item, before.head, true)
    ensures Reaches(Init(capacity, junk), t) && t == StepProducer(before)
    ensures AtRest(t) && t.published == before.published == items + [item]
    ensures |Live(t.slots, t.tail, t.head)| == capacity
  {
    var s0, n := Init(capacity, junk), capacity + 1;
    var s1 := FullAndPopping(capacity, junk, items);
    var s2 := OneOverflowRuns(s0, s1, item);
    assert s2.head == Slot(n, n) == Slot(0, n) == 0;
    var s3 := SecondTryBegins(s0, s2, item);
    before, t := SecondTryFails(s0, s3, item, items[0]);
  }

  /** The stale store, between the two loads of the second try. */
  lemma SecondTryFails<T(!new)>(s0: State<T>, s: State<T>, item: T, value: T) returns (before: State<T>, t: State<T>)
    requires Shape(s0) && Shape(s) && Reaches(s0, s) && |s.slots| > 1 && s.head == 0
    requires s.producer == LoadTail(item, 0, true) && s.consumer == PopStoreTail(0, 0, value)
    ensures Reaches(s0, before) && before.producer == LoadTail(item, before.head, true)
    ensures Reaches(s0, t) && t == StepProducer(before)
    ensures AtRest(t) && t.published == before.published == s.published
    ensures |Live(t.slots, t.tail, t.head)| == |s.slots| - 1
  {
    Go(s0, s, ConsumerStep);
    before := StepConsumer(s);
    Go(s0, before, ProducerStep);
    t := StepProducer(before);
  }

  /** An overflow pop, and the first load of the second try. */
  lemma SecondTryBegins<T(!new)>(s0: State<T>, s: State<T>, item: T) returns (t: State<T>)
    requires Shape(s0) && Full(s) && s.producer.Idle? && Reaches(s0, s)
    ensures Shape(t) && Reaches(s0, t) && t.producer == LoadTail(item, s.head, true) && t.consumer == s.consumer
    ensures t.head == s.head && |t.slots| == |s.slots| && t.published == s.published
  {
    DroppedKeeps(s, item);
    t := Dropped(s).(producer := LoadTail(item, s.head, true));
    FullPushLoadsRun(s0, s, item);
    Go(s0, s.(producer := DropStoreTail(item, s.tail, Holder(s, s.tail))), ProducerStep);
    Go(s0, Dropped(s).(producer := LoadHead(item, true)), ProducerStep);
  }
}
