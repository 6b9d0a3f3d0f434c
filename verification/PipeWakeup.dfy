/** The sleep protocol of sdk/fins/pipe.hpp: pop_wait against push, stop and notify, interleaved at every atomic
    load and store, mutex operation and condition-variable operation. One consumer, and any number of threads calling
    push and of threads calling stop or notify. A queue operation is one step here; SpscSafety says on which runs of a
    single producer that makes no difference. */
module PipeWakeup {
  import Pipe

  datatype Thread = NoThread | ConsumerThread | ProducerThread(id: nat) | StopperThread(id: nat)

  /** pop_wait, sdk/fins/pipe.hpp:53-69. From Set on, up to Unlock, except while asleep, the mutex is held. */
  datatype Consumer =
    | Away
    | FirstPop
    | Lock
    | SetWaiting
    | CheckQueue      // the wait predicate: is the queue non-empty?
    | CheckStarted    // the wait predicate: is the pipe stopped?
    | EnterWait       // the predicate was false: release the mutex and sleep, atomically
    | Asleep
    | Relock
    | ClearWaiting
    | SecondPop
    | Unlock

  /** push, sdk/fins/pipe.hpp:35-51. */
  datatype Producer<T> =
    | Quiet
    | LoadStarted(msg: T)
    | PushQueue(msg: T)
    | LoadWaiting
    | LockToNotify
    | NotifyOne
    | UnlockAfterNotify

  /** stop and notify, sdk/fins/pipe.hpp:76-86. */
  datatype Stopper = Still | StoreStopped | LockToStop | NotifyAll | UnlockAfterStop

  datatype State<T> = State(
    queue: seq<T>, started: bool, waiting: bool, owner: Thread,
    consumer: Consumer, producers: seq<Producer<T>>, stoppers: seq<Stopper>)

  datatype Event<T> =
    | CallPopWait | CallPush(id: nat, msg: T) | CallStop(id: nat)
    | ConsumerStep | ProducerStep(id: nat) | StopperStep(id: nat)
    | SpuriousWake

  function Init<T>(producers: nat, stoppers: nat): State<T> {
    State([], true, false, NoThread, Away, seq(producers, _ => Quiet), seq(stoppers, _ => Still))
  }

  /** One event; a blocked or inapplicable one changes nothing. */
  function Step<T>(s: State<T>, e: Event<T>): State<T> {
    match e
    case CallPopWait => if s.consumer.Away? then s.(consumer := FirstPop) else s
    case CallPush(id, msg) =>
      if id < |s.producers| && s.producers[id].Quiet? then s.(producers := s.producers[id := LoadStarted(msg)]) else s
    case CallStop(id) =>
      if id < |s.stoppers| && s.stoppers[id].Still? then s.(stoppers := s.stoppers[id := StoreStopped]) else s
    case ConsumerStep => StepConsumer(s)
    case ProducerStep(id) => if id < |s.producers| then StepProducer(s, id) else s
    case StopperStep(id) => if id < |s.stoppers| then StepStopper(s, id) else s
    case SpuriousWake => if s.consumer.Asleep? then s.(consumer := Relock) else s
  }

  function StepConsumer<T>(s: State<T>): State<T> {
    match s.consumer
    case Away => s
    case FirstPop => if s.queue != [] then s.(queue := s.queue[1..], consumer := Away) else s.(consumer := Lock)
    case Lock => if s.owner.NoThread? then s.(owner := ConsumerThread, consumer := SetWaiting) else s
    case SetWaiting => s.(waiting := true, consumer := CheckQueue)
    case CheckQueue => s.(consumer := if s.queue != [] then ClearWaiting else CheckStarted)
    case CheckStarted => s.(consumer := if s.started then EnterWait else ClearWaiting)
    case EnterWait => s.(owner := NoThread, consumer := Asleep)
    case Asleep => s
    case Relock => if s.owner.NoThread? then s.(owner := ConsumerThread, consumer := CheckQueue) else s
    case ClearWaiting => s.(waiting := false, consumer := SecondPop)
    case SecondPop => s.(queue := if s.queue != [] then s.queue[1..] else [], consumer := Unlock)
    case Unlock => s.(owner := NoThread, consumer := Away)
  }

  function Woken(c: Consumer): Consumer {
    if c.Asleep? then Relock else c
  }

  function StepProducer<T>(s: State<T>, id: nat): State<T>
    requires id < |s.producers|
  {
    match s.producers[id]
    case Quiet => s
    case LoadStarted(msg) => s.(producers := s.producers[id := if s.started then PushQueue(msg) else Quiet])
    case PushQueue(msg) =>
      s.(queue := Pipe.DropOldest(s.queue, msg), producers := s.producers[id := LoadWaiting])
    case LoadWaiting => s.(producers := s.producers[id := if s.waiting then LockToNotify else Quiet])
    case LockToNotify =>
      if s.owner.NoThread? then s.(owner := ProducerThread(id), producers := s.producers[id := NotifyOne]) else s
    case NotifyOne => s.(consumer := Woken(s.consumer), producers := s.producers[id := UnlockAfterNotify])
    case UnlockAfterNotify => s.(owner := NoThread, producers := s.producers[id := Quiet])
  }

  function StepStopper<T>(s: State<T>, id: nat): State<T>
    requires id < |s.stoppers|
  {
    match s.stoppers[id]
    case Still => s
    case StoreStopped => s.(started := false, stoppers := s.stoppers[id := LockToStop])
    case LockToStop =>
      if s.owner.NoThread? then s.(owner := StopperThread(id), stoppers := s.stoppers[id := NotifyAll]) else s
    case NotifyAll => s.(consumer := Woken(s.consumer), stoppers := s.stoppers[id := UnlockAfterStop])
    case UnlockAfterStop => s.(owner := NoThread, stoppers := s.stoppers[id := Still])
  }

  function Exec<T>(s: State<T>, events: seq<Event<T>>): State<T> {
    if events == [] then s else Step(Exec(s, events[..|events| - 1]), events[|events| - 1])
  }

  // ---------- the invariant ----------

  predicate ConsumerHolds(c: Consumer) {
    !c.Away? && !c.FirstPop? && !c.Lock? && !c.Asleep? && !c.Relock?
  }

  /** The consumer has announced itself and not yet withdrawn. */
  predicate Announced(c: Consumer) {
    c.CheckQueue? || c.CheckStarted? || c.EnterWait? || c.Asleep? || c.Relock? || c.ClearWaiting?
  }

  predicate ProducerHolds<T>(p: Producer<T>) {
    p.NotifyOne? || p.UnlockAfterNotify?
  }

  predicate StopperHolds(p: Stopper) {
    p.NotifyAll? || p.UnlockAfterStop?
  }

  /** There is a reason for the consumer not to sleep. */
  predicate HasWork<T>(s: State<T>) {
    s.queue != [] || !s.started
  }

  predicate ProducerOwes<T>(p: Producer<T>) {
    p.LoadWaiting? || p.LockToNotify? || p.NotifyOne?
  }

  predicate StopperOwes(p: Stopper) {
    p.LockToStop? || p.NotifyAll?
  }

  /** Some producer is past its push, or some stopper past its store, and has not notified yet. */
  ghost predicate NotifyOwed<T>(s: State<T>) {
    || (exists i :: 0 <= i < |s.producers| && ProducerOwes(s.producers[i]))
    || (exists i :: 0 <= i < |s.stoppers| && StopperOwes(s.stoppers[i]))
  }

  ghost predicate MutexInv<T>(s: State<T>) {
    && (s.owner.ConsumerThread? <==> ConsumerHolds(s.consumer))
    && (s.owner.ProducerThread? ==> s.owner.id < |s.producers|)
    && (s.owner.StopperThread? ==> s.owner.id < |s.stoppers|)
    && (forall i :: 0 <= i < |s.producers| ==> (s.owner == ProducerThread(i) <==> ProducerHolds(s.producers[i])))
    && (forall i :: 0 <= i < |s.stoppers| ==> (s.owner == StopperThread(i) <==> StopperHolds(s.stoppers[i])))
  }

  ghost predicate Inv<T>(s: State<T>) {
    && MutexInv(s)
    && (s.waiting <==> Announced(s.consumer))
    && (s.consumer.CheckStarted? && s.queue != [] ==> NotifyOwed(s))
    && (s.consumer.EnterWait? || s.consumer.Asleep? ==> HasWork(s) ==> NotifyOwed(s))
    && (s.consumer.ClearWaiting? || s.consumer.SecondPop? ==> HasWork(s))
  }

  lemma ConsumerStepKeeps<T>(s: State<T>)
    requires Inv(s)
    ensures Inv(StepConsumer(s))
  {
    var t := StepConsumer(s);
    assert t.producers == s.producers && t.stoppers == s.stoppers;
    assert NotifyOwed(s) <==> NotifyOwed(t);
  }

  lemma ProducerStepKeepsMutex<T>(s: State<T>, id: nat)
    requires MutexInv(s) && id < |s.producers|
    ensures MutexInv(StepProducer(s, id))
  {
    var t := StepProducer(s, id);
    assert t.stoppers == s.stoppers;
    assert ConsumerHolds(t.consumer) == ConsumerHolds(s.consumer);
    forall i | 0 <= i < |s.producers| && i != id ensures t.producers[i] == s.producers[i] {}
  }

  /** Only the notify itself, or finding nobody waiting, takes an owed notify away. */
  lemma ProducerStepStillOwes<T>(s: State<T>, id: nat)
    requires Inv(s) && id < |s.producers| && NotifyOwed(s) && !s.producers[id].NotifyOne?
    requires s.producers[id].LoadWaiting? ==> s.waiting
    ensures NotifyOwed(StepProducer(s, id))
  {
    var t := StepProducer(s, id);
    if i :| 0 <= i < |s.producers| && ProducerOwes(s.producers[i]) {
      assert ProducerOwes(t.producers[i]);
    } else {
      assert t.stoppers == s.stoppers;
    }
  }

  lemma ProducerStepKeeps<T>(s: State<T>, id: nat)
    requires Inv(s) && id < |s.producers|
    ensures Inv(StepProducer(s, id))
  {
    var t := StepProducer(s, id);
    ProducerStepKeepsMutex(s, id);
    if s.producers[id].PushQueue? {
      assert ProducerOwes(t.producers[id]);
    } else if NotifyOwed(s) && !s.producers[id].NotifyOne? && (s.producers[id].LoadWaiting? ==> s.waiting) {
      ProducerStepStillOwes(s, id);
    }
  }

  lemma StopperStepKeepsMutex<T>(s: State<T>, id: nat)
    requires MutexInv(s) && id < |s.stoppers|
    ensures MutexInv(StepStopper(s, id))
  {
    var t := StepStopper(s, id);
    assert t.producers == s.producers;
    assert ConsumerHolds(t.consumer) == ConsumerHolds(s.consumer);
  }

  lemma StopperStepStillOwes<T>(s: State<T>, id: nat)
    requires Inv(s) && id < |s.stoppers| && NotifyOwed(s) && !s.stoppers[id].NotifyAll?
    ensures NotifyOwed(StepStopper(s, id))
  {
    var t := StepStopper(s, id);
    if i :| 0 <= i < |s.stoppers| && StopperOwes(s.stoppers[i]) {
      assert StopperOwes(t.stoppers[i]);
    } else {
      assert t.producers == s.producers;
    }
  }

  lemma StopperStepKeeps<T>(s: State<T>, id: nat)
    requires Inv(s) && id < |s.stoppers|
    ensures Inv(StepStopper(s, id))
  {
    var t := StepStopper(s, id);
    StopperStepKeepsMutex(s, id);
    if s.stoppers[id].StoreStopped? {
      assert StopperOwes(t.stoppers[id]);
    } else if NotifyOwed(s) && !s.stoppers[id].NotifyAll? {
      StopperStepStillOwes(s, id);
    }
  }

  /** A call that starts owes nothing yet and takes nothing away. */
  lemma CallKeeps<T>(s: State<T>, e: Event<T>)
    requires Inv(s) && (e.CallPush? || e.CallStop?)
    ensures Inv(Step(s, e))
  {
    var t := Step(s, e);
    if NotifyOwed(s) {
      if i :| 0 <= i < |s.producers| && ProducerOwes(s.producers[i]) {
        assert ProducerOwes(t.producers[i]);
      } else {
        var i :| 0 <= i < |s.stoppers| && StopperOwes(s.stoppers[i]);
        assert StopperOwes(t.stoppers[i]);
      }
    }
  }

  lemma StepKeeps<T>(s: State<T>, e: Event<T>)
    requires Inv(s)
    ensures Inv(Step(s, e))
  {
    match e
    case ConsumerStep => ConsumerStepKeeps(s);
    case ProducerStep(id) =>
      if id < |s.producers| {
        ProducerStepKeeps(s, id);
      }
    case StopperStep(id) =>
      if id < |s.stoppers| {
        StopperStepKeeps(s, id);
      }
    case CallPush(_, _) => CallKeeps(s, e);
    case CallStop(_) => CallKeeps(s, e);
    case _ =>
      var t := Step(s, e);
      assert t.producers == s.producers && t.stoppers == s.stoppers;
      assert NotifyOwed(s) ==> NotifyOwed(t);
  }

  /** No wakeup is lost, in any interleaving: a consumer asleep on a non-empty or stopped pipe is owed a notify. */
  lemma {:induction false} NoLostWakeup<T>(producers: nat, stoppers: nat, events: seq<Event<T>>)
    ensures var s := Exec(Init(producers, stoppers), events);
            Inv(s) && (s.consumer.Asleep? && HasWork(s) ==> NotifyOwed(s))
  {
    if events != [] {
      var before := events[..|events| - 1];
      NoLostWakeup(producers, stoppers, before);
      StepKeeps(Exec(Init(producers, stoppers), before), events[|events| - 1]);
    }
  }

  /** Once the calls to push, stop and notify have returned, the consumer sleeps only on an empty, running pipe. */
  lemma QuietSleep<T>(producers: nat, stoppers: nat, events: seq<Event<T>>)
    requires var s := Exec(Init(producers, stoppers), events);
             && (forall i :: 0 <= i < |s.producers| ==> s.producers[i].Quiet?)
             && (forall i :: 0 <= i < |s.stoppers| ==> s.stoppers[i].Still?)
    ensures var s := Exec(Init(producers, stoppers), events);
            s.consumer.Asleep? ==> s.queue == [] && s.started
  {
    NoLostWakeup(producers, stoppers, events);
  }

  /** pop_wait comes back empty-handed only from a stopped pipe. */
  lemma EmptyHandedMeansStopped<T>(producers: nat, stoppers: nat, events: seq<Event<T>>)
    ensures var s := Exec(Init(producers, stoppers), events);
            s.consumer.SecondPop? && s.queue == [] ==> !s.started
  {
    NoLostWakeup(producers, stoppers, events);
  }

  // ---------- the owed notify arrives ----------

  /** The actions left in the calls to push, stop and notify that are under way. */
  function ProducerLeft<T>(p: Producer<T>): nat {
    match p
    case Quiet => 0
    case LoadStarted(_) => 6
    case PushQueue(_) => 5
    case LoadWaiting => 4
    case LockToNotify => 3
    case NotifyOne => 2
    case UnlockAfterNotify => 1
  }

  function StopperLeft(p: Stopper): nat {
    match p
    case Still => 0
    case StoreStopped => 4
    case LockToStop => 3
    case NotifyAll => 2
    case UnlockAfterStop => 1
  }

  function ProducersLeft<T>(producers: seq<Producer<T>>): nat {
    if producers == [] then 0
    else ProducersLeft(producers[..|producers| - 1]) + ProducerLeft(producers[|producers| - 1])
  }

  function StoppersLeft(stoppers: seq<Stopper>): nat {
    if stoppers == [] then 0 else StoppersLeft(stoppers[..|stoppers| - 1]) + StopperLeft(stoppers[|stoppers| - 1])
  }

  function ActionsLeft<T>(s: State<T>): nat {
    ProducersLeft(s.producers) + StoppersLeft(s.stoppers)
  }

  /** A step of a call to push, stop or notify that is under way and not blocked on the mutex. */
  predicate Runnable<T>(s: State<T>, e: Event<T>) {
    match e
    case ProducerStep(id) =>
      id < |s.producers| && !s.producers[id].Quiet? && (s.producers[id].LockToNotify? ==> s.owner.NoThread?)
    case StopperStep(id) =>
      id < |s.stoppers| && !s.stoppers[id].Still? && (s.stoppers[id].LockToStop? ==> s.owner.NoThread?)
    case _ => false
  }

  lemma {:induction false} ProducersLeftUpdate<T>(producers: seq<Producer<T>>, id: nat, p: Producer<T>)
    requires id < |producers|
    ensures ProducersLeft(producers[id := p])
            == ProducersLeft(producers) - ProducerLeft(producers[id]) + ProducerLeft(p)
  {
    var last := |producers| - 1;
    if id < last {
      ProducersLeftUpdate(producers[..last], id, p);
      assert producers[id := p][..last] == producers[..last][id := p];
    } else {
      assert producers[id := p][..last] == producers[..last];
    }
  }

  lemma {:induction false} StoppersLeftUpdate(stoppers: seq<Stopper>, id: nat, p: Stopper)
    requires id < |stoppers|
    ensures StoppersLeft(stoppers[id := p]) == StoppersLeft(stoppers) - StopperLeft(stoppers[id]) + StopperLeft(p)
  {
    var last := |stoppers| - 1;
    if id < last {
      StoppersLeftUpdate(stoppers[..last], id, p);
      assert stoppers[id := p][..last] == stoppers[..last][id := p];
    } else {
      assert stoppers[id := p][..last] == stoppers[..last];
    }
  }

  lemma ProducerMakesProgress<T>(s: State<T>, id: nat)
    requires Runnable(s, ProducerStep(id))
    ensures var t := StepProducer(s, id);
            t.stoppers == s.stoppers && ProducersLeft(t.producers) < ProducersLeft(s.producers)
  {
    ProducersLeftUpdate(s.producers, id, StepProducer(s, id).producers[id]);
  }

  lemma StopperMakesProgress<T>(s: State<T>, id: nat)
    requires Runnable(s, StopperStep(id))
    ensures var t := StepStopper(s, id);
            t.producers == s.producers && StoppersLeft(t.stoppers) < StoppersLeft(s.stoppers)
  {
    StoppersLeftUpdate(s.stoppers, id, StepStopper(s, id).stoppers[id]);
  }

  lemma RunnableMakesProgress<T>(s: State<T>, e: Event<T>)
    requires Runnable(s, e)
    ensures ActionsLeft(Step(s, e)) < ActionsLeft(s)
  {
    if e.ProducerStep? {
      ProducerMakesProgress(s, e.id);
    } else {
      StopperMakesProgress(s, e.id);
    }
  }

  lemma RunnableKeepsWork<T>(s: State<T>, e: Event<T>)
    requires Runnable(s, e) && Step(s, e).consumer.Asleep?
    ensures s.consumer.Asleep? && (HasWork(s) ==> HasWork(Step(s, e)))
  {}

  /** While the consumer sleeps on work, some call to push, stop or notify can take a step: the holder of the
      mutex if there is one, the thread that owes the notify otherwise. */
  lemma SomeoneCanRun<T>(s: State<T>) returns (e: Event<T>)
    requires Inv(s) && s.consumer.Asleep? && HasWork(s)
    ensures Runnable(s, e)
  {
    if s.owner.StopperThread? {
      e := StopperStep(s.owner.id);
    } else if s.owner.ProducerThread? {
      e := ProducerStep(s.owner.id);
    } else if i :| 0 <= i < |s.producers| && ProducerOwes(s.producers[i]) {
      e := ProducerStep(i);
    } else {
      var i :| 0 <= i < |s.stoppers| && StopperOwes(s.stoppers[i]);
      e := StopperStep(i);
    }
  }

  ghost predicate AllRunnable<T>(s: State<T>, events: seq<Event<T>>) {
    forall k :: 0 <= k < |events| ==> Runnable(Exec(s, events[..k]), events[k])
  }

  /** The sleeper is woken: letting the calls under way run, in any order, the consumer can only stay asleep on
      work for fewer steps than those calls have left, and until then one of them can always run. */
  lemma {:induction false} OwedNotifyArrives<T>(s: State<T>, events: seq<Event<T>>)
    requires Inv(s) && s.consumer.Asleep? && HasWork(s) && AllRunnable(s, events)
    ensures var t := Exec(s, events);
            Inv(t) && (t.consumer.Asleep? ==>
              HasWork(t) && |events| < ActionsLeft(s) && exists e :: Runnable(t, e))
    ensures ActionsLeft(Exec(s, events)) <= ActionsLeft(s) - |events|
  {
    var t := Exec(s, events);
    if events != [] {
      var before := events[..|events| - 1];
      assert forall k :: 0 <= k < |before| ==> before[..k] == events[..k];
      OwedNotifyArrives(s, before);
      assert before == events[..|before|];
      StepKeeps(Exec(s, before), events[|events| - 1]);
      RunnableMakesProgress(Exec(s, before), events[|events| - 1]);
    }
    if t.consumer.Asleep? {
      if events != [] {
        RunnableKeepsWork(Exec(s, events[..|events| - 1]), events[|events| - 1]);
      }
      var e := SomeoneCanRun(t);
      RunnableMakesProgress(t, e);
    }
  }

  // ---------- whole calls that nobody gets in between ----------

  /** `n` times the same event. */
  function Repeated<T>(s: State<T>, e: Event<T>, n: nat): State<T>
    decreases n
  {
    if n == 0 then s else Repeated(Step(s, e), e, n - 1)
  }

  lemma ThreeTimes<T>(s: State<T>, e: Event<T>)
    ensures Repeated(s, e, 3) == Step(Step(Step(s, e), e), e)
  {
    assert Repeated(s, e, 3) == Repeated(Step(Step(s, e), e), e, 1);
  }

  lemma TwiceMore<T>(s: State<T>, e: Event<T>, n: nat)
    ensures Repeated(s, e, n + 2) == Repeated(Step(Step(s, e), e), e, n)
  {
    assert Repeated(s, e, n + 2) == Repeated(Step(s, e), e, n + 1);
  }

  /** The push of a message that is then in the ring, up to the notify. */
  lemma PushQueues<T>(s: State<T>, id: nat, msg: T)
    requires id < |s.producers| && s.producers[id] == LoadStarted(msg) && s.started
    ensures Repeated(s, ProducerStep(id), 3)
            == s.(queue := (if |s.queue| < 32 then s.queue else s.queue[1..]) + [msg],
                  producers := s.producers[id := if s.waiting then LockToNotify else Quiet])
  {
    var e, queue := ProducerStep(id), (if |s.queue| < 32 then s.queue else s.queue[1..]) + [msg];
    assert Step(s, e) == s.(producers := s.producers[id := PushQueue(msg)]);
    assert Step(Step(s, e), e) == s.(queue := queue, producers := s.producers[id := LoadWaiting]);
    ThreeTimes(s, e);
  }

  lemma NotifyWakes<T>(s: State<T>, id: nat)
    requires id < |s.producers| && s.producers[id].LockToNotify? && s.owner.NoThread?
    ensures Repeated(s, ProducerStep(id), 3)
            == s.(consumer := Woken(s.consumer), producers := s.producers[id := Quiet])
    ensures !Woken(s.consumer).Asleep?
  {
    var e := ProducerStep(id);
    var s1 := s.(owner := ProducerThread(id), producers := s.producers[id := NotifyOne]);
    var s2 := s.(owner := ProducerThread(id), consumer := Woken(s.consumer),
                 producers := s.producers[id := UnlockAfterNotify]);
    assert StepProducer(s, id) == s1;
    assert s1.producers[id := UnlockAfterNotify] == s2.producers;
    assert s2.producers[id := Quiet] == s.producers[id := Quiet];
    assert StepProducer(s1, id) == s2;
    assert StepProducer(s2, id) == s.(consumer := Woken(s.consumer), producers := s.producers[id := Quiet]);
    ThreeTimes(s, e);
  }

  /** A push on a stopped pipe is over at its first step. */
  lemma StoppedPushEnds<T>(s: State<T>, id: nat, msg: T)
    requires id < |s.producers|
    ensures s.producers[id].Quiet? ==>
              Step(s, CallPush(id, msg)) == s.(producers := s.producers[id := LoadStarted(msg)])
    ensures s.producers[id] == LoadStarted(msg) && !s.started ==>
              Step(s, ProducerStep(id)) == s.(producers := s.producers[id := Quiet])
  {
  }

  /** stop clears the flag and wakes the sleeping consumer. */
  lemma StopWakes<T>(s: State<T>, id: nat)
    requires id < |s.stoppers| && s.stoppers[id].StoreStopped? && s.owner.NoThread?
    ensures Repeated(s, StopperStep(id), 4)
            == s.(started := false, consumer := Woken(s.consumer), stoppers := s.stoppers[id := Still])
  {
    var e := StopperStep(id);
    var s2 := s.(started := false, owner := StopperThread(id), stoppers := s.stoppers[id := NotifyAll]);
    assert Step(s, e) == s.(started := false, stoppers := s.stoppers[id := LockToStop]);
    assert Step(Step(s, e), e) == s2;
    assert Step(s2, e) == s2.(consumer := Woken(s.consumer), stoppers := s.stoppers[id := UnlockAfterStop]);
    TwiceMore(s, e, 2);
    TwiceMore(s2, e, 0);
  }

  /** pop_wait takes the oldest message at once if there is one; else it goes to sleep on a running pipe. */
  lemma PopWaitBegins<T>(s: State<T>)
    requires s.consumer.FirstPop?
    ensures s.queue != [] ==> Step(s, ConsumerStep) == s.(queue := s.queue[1..], consumer := Away)
    ensures s.queue == [] && s.started && s.owner.NoThread? ==>
              Repeated(s, ConsumerStep, 6) == s.(consumer := Asleep, waiting := true)
  {
    if s.queue == [] && s.started && s.owner.NoThread? {
      var e := ConsumerStep;
      var s3 := s.(consumer := CheckQueue, owner := ConsumerThread, waiting := true);
      assert Step(Step(Step(s, e), e), e) == s3;
      assert Step(Step(Step(s3, e), e), e) == s.(consumer := Asleep, waiting := true);
      TwiceMore(s, e, 4);
      ThreeTimes(s3, e);
      assert Repeated(Step(Step(s, e), e), e, 4) == Repeated(s3, e, 3);
    }
  }

  /** Woken to a message, or to a stopped pipe, it takes the oldest message if there is one and returns. */
  lemma PopWaitEnds<T>(s: State<T>)
    requires s.consumer.Relock? && s.owner.NoThread? && HasWork(s)
    ensures Repeated(s, ConsumerStep, if s.queue != [] then 5 else 6)
            == s.(consumer := Away, waiting := false, queue := if s.queue != [] then s.queue[1..] else [])
  {
    var e := ConsumerStep;
    var s1 := s.(consumer := CheckQueue, owner := ConsumerThread);
    var ready := s.(consumer := ClearWaiting, owner := ConsumerThread);
    assert Step(s, e) == s1;
    ReadyEnds(ready);
    if s.queue != [] {
      assert Step(s1, e) == ready;
      TwiceMore(s, e, 3);
    } else {
      assert Step(Step(s1, e), e) == ready;
      TwiceMore(s, e, 4);
      assert Repeated(Step(s1, e), e, 4) == Repeated(ready, e, 3);
    }
  }

  lemma ReadyEnds<T>(s: State<T>)
    requires s.consumer.ClearWaiting?
    ensures Repeated(s, ConsumerStep, 3)
            == s.(consumer := Away, waiting := false, owner := NoThread,
                  queue := if s.queue != [] then s.queue[1..] else [])
  {
    var s1 := s.(consumer := SecondPop, waiting := false);
    var s2 := s.(consumer := Unlock, waiting := false, queue := if s.queue != [] then s.queue[1..] else []);
    assert Step(s, ConsumerStep) == s1;
    assert Step(s1, ConsumerStep) == s2;
    ThreeTimes(s, ConsumerStep);
  }

  /** A call begins where nothing of its thread is under way, and a sleeper can wake up by itself. */
  lemma CallsBegin<T>(s: State<T>, id: nat)
    ensures s.consumer.Away? ==> Step(s, CallPopWait) == s.(consumer := FirstPop)
    ensures id < |s.stoppers| && s.stoppers[id].Still? ==>
              Step(s, CallStop(id)) == s.(stoppers := s.stoppers[id := StoreStopped])
    ensures Step(s, SpuriousWake) == s.(consumer := Woken(s.consumer))
    ensures !Woken(s.consumer).Asleep?
  {
  }
}
