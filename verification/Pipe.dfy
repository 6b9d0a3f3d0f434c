/** The drop-oldest pipe of sdk/fins/pipe.hpp, one call at a time. The sleep protocol of pop_wait is in PipeWakeup,
    the interleaving of push with pop in SpscInterleaving. */
module Pipe {
  import opened SpscQueue

  const PIPE_CAPACITY: nat := 32

  /** What became of an accepted message. */
  datatype Fate = Queued | Delivered | Overwritten | Drained

  /** A pipe and its history: everything it accepted, the fate of each message, and the deliveries in order. */
  datatype PipeState<T> = PipeState(
    queue: seq<T>, started: bool, accepted: seq<T>, fates: seq<Fate>, delivered: seq<T>)
  {
    /** The position, among all accepted messages, of the oldest one still queued. */
    function First(): int {
      |accepted| - |queue|
    }
  }

  function Fresh<T>(): PipeState<T> {
    PipeState([], true, [], [], [])
  }

  /** The queue after offering a message to it: a full queue loses its oldest one. */
  function DropOldest<T>(queue: seq<T>, msg: T): seq<T> {
    if |queue| < PIPE_CAPACITY then queue + [msg] else queue[1..] + [msg]
  }

  function Marked(fates: seq<Fate>, i: int, fate: Fate): seq<Fate> {
    if 0 <= i < |fates| then fates[i := fate] else fates
  }

  function Pushed<T>(s: PipeState<T>, msg: T): PipeState<T> {
    if !s.started then s
    else
      var fates := if |s.queue| < PIPE_CAPACITY then s.fates else Marked(s.fates, s.First(), Overwritten);
      s.(queue := DropOldest(s.queue, msg), accepted := s.accepted + [msg], fates := fates + [Queued])
  }

  function Popped<T>(s: PipeState<T>): PipeState<T> {
    if s.queue == [] then s
    else
      s.(queue := s.queue[1..], fates := Marked(s.fates, s.First(), Delivered),
         delivered := s.delivered + [s.queue[0]])
  }

  function Stopped<T>(s: PipeState<T>): PipeState<T> {
    s.(started := false)
  }

  /** One turn of the loop in reset. */
  function DrainedOne<T>(s: PipeState<T>): PipeState<T> {
    if s.queue == [] then s else s.(queue := s.queue[1..], fates := Marked(s.fates, s.First(), Drained))
  }

  function DrainedAll<T>(s: PipeState<T>): PipeState<T>
    decreases |s.queue|
  {
    if s.queue == [] then s else DrainedAll(DrainedOne(s))
  }

  function Restarted<T>(s: PipeState<T>): PipeState<T> {
    DrainedAll(s).(started := true)
  }

  /** A running pipe accepts a message and queues it last, over the oldest of 32; a stopped one ignores it. A pop
      delivers the oldest message. Only stop and reset touch the flag, and reset empties the queue. */
  lemma CallsByCase<T>(s: PipeState<T>, msg: T)
    ensures !s.started ==> Pushed(s, msg) == s
    ensures s.started ==>
              var t := Pushed(s, msg);
              && t.accepted == s.accepted + [msg] && t.started && t.delivered == s.delivered
              && t.queue == (if |s.queue| < 32 then s.queue else s.queue[1..]) + [msg]
    ensures s.queue == [] ==> Popped(s) == s
    ensures s.queue != [] ==>
              var t := Popped(s);
              && t.queue == s.queue[1..] && t.delivered == s.delivered + [s.queue[0]]
              && t.started == s.started && t.accepted == s.accepted
    ensures Stopped(s) == s.(started := false)
    ensures Restarted(s).started && Restarted(s).queue == [] && Restarted(s).accepted == s.accepted
    ensures Restarted(s).delivered == s.delivered
  {
    DrainedAllEmpties(s);
  }

  lemma {:induction false} DrainedAllEmpties<T>(s: PipeState<T>)
    ensures var t := DrainedAll(s); t.queue == [] && t.accepted == s.accepted && t.delivered == s.delivered
    decreases |s.queue|
  {
    if s.queue != [] {
      DrainedAllEmpties(DrainedOne(s));
    }
  }

  // ---------- the window property ----------

  /** One past the last delivered or drained message, 0 if there is none. */
  function Cut(fates: seq<Fate>): (cut: nat)
    ensures cut <= |fates|
    ensures cut > 0 ==> fates[cut - 1].Delivered? || fates[cut - 1].Drained?
    ensures forall i :: cut <= i < |fates| ==> !fates[i].Delivered? && !fates[i].Drained?
  {
    if fates == [] then 0
    else if fates[|fates| - 1].Delivered? || fates[|fates| - 1].Drained? then |fates|
    else Cut(fates[..|fates| - 1])
  }

  /** The messages with the given fate, in acceptance order. */
  function WithFate<T>(accepted: seq<T>, fates: seq<Fate>, fate: Fate): seq<T>
    requires |accepted| == |fates|
  {
    if fates == [] then []
    else
      var n := |fates| - 1;
      WithFate(accepted[..n], fates[..n], fate) + if fates[n] == fate then [accepted[n]] else []
  }

  function Min(a: nat, b: nat): nat {
    if a < b then a else b
  }

  /** The queue is the most recent min(k, 32) of the k accepted messages that come after the last delivered or
      drained one; exactly those are marked as queued, and the deliveries are the messages marked delivered. */
  ghost predicate HoldsWindow<T>(s: PipeState<T>) {
    && |s.fates| == |s.accepted|
    && |s.queue| == Min(|s.accepted| - Cut(s.fates), PIPE_CAPACITY)
    && s.queue == s.accepted[s.First()..]
    && (forall i :: 0 <= i < |s.fates| ==> (s.fates[i].Queued? <==> s.First() <= i))
    && s.delivered == WithFate(s.accepted, s.fates, Delivered)
  }

  lemma {:induction false} WithFatePrefix<T>(accepted: seq<T>, fates: seq<Fate>, fate: Fate, n: nat)
    requires |accepted| == |fates| && n <= |fates|
    requires forall i :: n <= i < |fates| ==> fates[i] != fate
    ensures WithFate(accepted, fates, fate) == WithFate(accepted[..n], fates[..n], fate)
  {
    if n == |fates| {
      assert accepted[..n] == accepted && fates[..n] == fates;
    } else {
      var m := |fates| - 1;
      WithFatePrefix(accepted[..m], fates[..m], fate, n);
      assert accepted[..m][..n] == accepted[..n] && fates[..m][..n] == fates[..n];
    }
  }

  /** Marking message `i`, after which nothing has the new fate yet, adds it at the end of that fate's messages. */
  lemma MarkAppends<T>(accepted: seq<T>, fates: seq<Fate>, i: nat, fate: Fate)
    requires |accepted| == |fates| && i < |fates|
    requires forall k :: i <= k < |fates| ==> fates[k] != fate
    ensures WithFate(accepted, fates[i := fate], fate) == WithFate(accepted, fates, fate) + [accepted[i]]
  {
    var marked := fates[i := fate];
    WithFatePrefix(accepted, fates, fate, i);
    WithFatePrefix(accepted, marked, fate, i + 1);
    assert accepted[..i + 1][..i] == accepted[..i] && marked[..i + 1][..i] == fates[..i];
  }

  lemma MarkKeeps<T>(accepted: seq<T>, fates: seq<Fate>, i: nat, mark: Fate, fate: Fate)
    requires |accepted| == |fates| && i < |fates| && mark != fate
    requires forall k :: i <= k < |fates| ==> fates[k] != fate
    ensures WithFate(accepted, fates[i := mark], fate) == WithFate(accepted, fates, fate)
  {
    WithFatePrefix(accepted, fates, fate, i);
    WithFatePrefix(accepted, fates[i := mark], fate, i);
    assert fates[i := mark][..i] == fates[..i];
  }

  /** Cut is determined by where the last delivered or drained message is. */
  lemma CutIs(fates: seq<Fate>, cut: nat)
    requires cut <= |fates|
    requires cut > 0 ==> fates[cut - 1].Delivered? || fates[cut - 1].Drained?
    requires forall i :: cut <= i < |fates| ==> !fates[i].Delivered? && !fates[i].Drained?
    ensures Cut(fates) == cut
  {
    var c := Cut(fates);
    assert cut > 0 ==> fates[cut - 1].Delivered? || fates[cut - 1].Drained?;
    assert c > 0 ==> fates[c - 1].Delivered? || fates[c - 1].Drained?;
    if c != cut {
      assert false;
    }
  }

  lemma QueuedKeepsDeliveries<T>(accepted: seq<T>, fates: seq<Fate>, msg: T)
    requires |accepted| == |fates|
    ensures WithFate(accepted + [msg], fates + [Queued], Delivered) == WithFate(accepted, fates, Delivered)
  {
    var n := |fates|;
    assert (fates + [Queued])[..n] == fates;
    assert (accepted + [msg])[..n] == accepted;
  }

  lemma QueuedKeepsCut(fates: seq<Fate>)
    ensures Cut(fates + [Queued]) == Cut(fates)
  {
    assert (fates + [Queued])[..|fates|] == fates;
  }

  lemma AppendKeepsWindow<T>(s: PipeState<T>, msg: T)
    requires HoldsWindow(s) && |s.queue| < PIPE_CAPACITY
    ensures HoldsWindow(s.(queue := s.queue + [msg], accepted := s.accepted + [msg], fates := s.fates + [Queued]))
  {
    QueuedKeepsDeliveries(s.accepted, s.fates, msg);
    QueuedKeepsCut(s.fates);
  }

  /** Marking the oldest queued message as overwritten takes nothing else. */
  lemma OverwriteMarks<T>(s: PipeState<T>)
    requires HoldsWindow(s) && s.queue != []
    ensures var marked := Marked(s.fates, s.First(), Overwritten);
            && |marked| == |s.accepted| && Cut(marked) == Cut(s.fates)
            && WithFate(s.accepted, marked, Delivered) == s.delivered
            && (forall i :: 0 <= i < |marked| ==> (marked[i].Queued? <==> s.First() < i))
  {
    MarkKeeps(s.accepted, s.fates, s.First(), Overwritten, Delivered);
    CutIs(Marked(s.fates, s.First(), Overwritten), Cut(s.fates));
  }

  lemma ReplaceKeepsWindow<T>(s: PipeState<T>, msg: T)
    requires HoldsWindow(s) && |s.queue| == PIPE_CAPACITY
    ensures HoldsWindow(s.(queue := s.queue[1..] + [msg], accepted := s.accepted + [msg],
                           fates := Marked(s.fates, s.First(), Overwritten) + [Queued]))
  {
    var marked := Marked(s.fates, s.First(), Overwritten);
    OverwriteMarks(s);
    QueuedKeepsDeliveries(s.accepted, marked, msg);
    QueuedKeepsCut(marked);
  }

  lemma PushKeepsWindow<T>(s: PipeState<T>, msg: T)
    requires HoldsWindow(s)
    ensures HoldsWindow(Pushed(s, msg))
  {
    if s.started {
      if |s.queue| < PIPE_CAPACITY {
        AppendKeepsWindow(s, msg);
      } else {
        ReplaceKeepsWindow(s, msg);
      }
    }
  }

  lemma PopKeepsWindow<T>(s: PipeState<T>)
    requires HoldsWindow(s)
    ensures HoldsWindow(Popped(s))
  {
    if s.queue != [] {
      MarkAppends(s.accepted, s.fates, s.First(), Delivered);
      CutIs(Popped(s).fates, s.First() + 1);
    }
  }

  lemma DrainOneKeepsWindow<T>(s: PipeState<T>)
    requires HoldsWindow(s)
    ensures HoldsWindow(DrainedOne(s))
  {
    if s.queue != [] {
      MarkKeeps(s.accepted, s.fates, s.First(), Drained, Delivered);
      CutIs(DrainedOne(s).fates, s.First() + 1);
    }
  }

  lemma {:induction false} DrainKeepsWindow<T>(s: PipeState<T>)
    requires HoldsWindow(s)
    ensures HoldsWindow(DrainedAll(s)) && DrainedAll(s).queue == []
    ensures DrainedAll(s).delivered == s.delivered && DrainedAll(s).accepted == s.accepted
    decreases |s.queue|
  {
    if s.queue != [] {
      DrainOneKeepsWindow(s);
      DrainKeepsWindow(DrainedOne(s));
    }
  }

  // ---------- whole runs ----------

  datatype Op<T> = Push(msg: T) | Pop | Notify | Stop | Reset

  function Applied<T>(s: PipeState<T>, op: Op<T>): PipeState<T> {
    match op
    case Push(msg) => Pushed(s, msg)
    case Pop => Popped(s)
    case Notify => Stopped(s)
    case Stop => Stopped(s)
    case Reset => Restarted(s)
  }

  function Run<T>(ops: seq<Op<T>>): PipeState<T> {
    if ops == [] then Fresh() else Applied(Run(ops[..|ops| - 1]), ops[|ops| - 1])
  }

  /** Over any sequence of calls the pipe holds its window. */
  lemma {:induction false} RunHoldsWindow<T>(ops: seq<Op<T>>)
    ensures HoldsWindow(Run(ops))
  {
    if ops != [] {
      var s := Run(ops[..|ops| - 1]);
      RunHoldsWindow(ops[..|ops| - 1]);
      match ops[|ops| - 1]
      case Push(msg) => PushKeepsWindow(s, msg);
      case Pop => PopKeepsWindow(s);
      case Reset => DrainKeepsWindow(s);
      case _ =>
    }
  }

  function CountFate(fates: seq<Fate>, fate: Fate): nat {
    if fates == [] then 0 else CountFate(fates[..|fates| - 1], fate) + if fates[|fates| - 1] == fate then 1 else 0
  }

  lemma {:induction false} FatesPartition(fates: seq<Fate>)
    ensures CountFate(fates, Queued) + CountFate(fates, Delivered) + CountFate(fates, Overwritten)
            + CountFate(fates, Drained) == |fates|
  {
    if fates != [] {
      FatesPartition(fates[..|fates| - 1]);
    }
  }

  lemma {:induction false} CountIsLength<T>(accepted: seq<T>, fates: seq<Fate>, fate: Fate)
    requires |accepted| == |fates|
    ensures CountFate(fates, fate) == |WithFate(accepted, fates, fate)|
  {
    if fates != [] {
      CountIsLength(accepted[..|fates| - 1], fates[..|fates| - 1], fate);
    }
  }

  lemma {:induction false} QueuedSuffixCount(fates: seq<Fate>, first: nat)
    requires first <= |fates|
    requires forall i :: 0 <= i < |fates| ==> (fates[i].Queued? <==> first <= i)
    ensures CountFate(fates, Queued) == |fates| - first
  {
    if fates != [] {
      if first == |fates| {
        QueuedSuffixCount(fates[..|fates| - 1], first - 1);
      } else {
        QueuedSuffixCount(fates[..|fates| - 1], first);
      }
    }
  }

  /** Nothing is lost track of: accepted = delivered + overwritten + drained + queued, after any calls. */
  lemma RunConserves<T>(ops: seq<Op<T>>)
    ensures var s := Run(ops);
            |s.accepted| == |s.delivered| + CountFate(s.fates, Overwritten) + CountFate(s.fates, Drained) + |s.queue|
  {
    var s := Run(ops);
    RunHoldsWindow(ops);
    FatesPartition(s.fates);
    CountIsLength(s.accepted, s.fates, Delivered);
    QueuedSuffixCount(s.fates, s.First());
  }

  // ---------- the class ----------

  class Pipe<T(0)> {
    const queue: SPSCQueue<T>
    var started: bool
    ghost var accepted: seq<T>
    ghost var fates: seq<Fate>
    ghost var delivered: seq<T>

    ghost predicate Valid()
      reads this, queue, queue.buffer
    {
      queue.Valid() && queue.capacity == PIPE_CAPACITY && HoldsWindow(Abstract())
    }

    ghost function Abstract(): PipeState<T>
      requires queue.Valid()
      reads this, queue, queue.buffer
    {
      PipeState(queue.Contents(), started, accepted, fates, delivered)
    }

    constructor ()
      ensures Valid() && fresh(queue) && fresh(queue.buffer)
      ensures Abstract() == Fresh()
    {
      queue := new SPSCQueue(PIPE_CAPACITY);
      started := true;
      accepted, fates, delivered := [], [], [];
    }

    /** The push of the overflow branch is retried once after the pop and, run alone, always succeeds then. */
    method Enqueue(msg: T, temp: T)
      requires queue.Valid() && queue.capacity == PIPE_CAPACITY
      modifies queue, queue.buffer
      ensures queue.Valid() && queue.Contents() == DropOldest(old(queue.Contents()), msg)
    {
      var ok := queue.Push(msg);
      if !ok {
        var popped, _ := queue.Pop(temp);
        if popped {
          var again := queue.Push(msg);
          assert again;
        }
      }
    }

    method Push(msg: T, temp: T)
      requires Valid()
      modifies this, queue, queue.buffer
      ensures Valid()
      ensures Abstract() == Pushed(old(Abstract()), msg)
    {
      if !started {
        return;
      }
      PushKeepsWindow(Abstract(), msg);
      ghost var after := Pushed(Abstract(), msg);
      Enqueue(msg, temp);
      accepted, fates := after.accepted, after.fates;
      assert Abstract() == after;
    }

    method TryPop(before: T) returns (ok: bool, msg: T)
      requires Valid()
      modifies this, queue
      ensures Valid()
      ensures Abstract() == Popped(old(Abstract()))
      ensures ok == (old(Abstract()).queue != []) && msg == if ok then old(Abstract()).queue[0] else before
    {
      PopKeepsWindow(Abstract());
      ghost var first := Abstract().First();
      ok, msg := queue.Pop(before);
      if ok {
        fates, delivered := Marked(fates, first, Delivered), delivered + [msg];
      }
    }

    /** stop and notify differ only in the memory order of the store. */
    method Stop()
      modifies this`started
      ensures !started
      ensures old(Valid()) ==> Valid() && Abstract() == Stopped(old(Abstract()))
    {
      started := false;
    }

    method Notify()
      requires Valid()
      modifies this`started
      ensures Valid()
      ensures Abstract() == Stopped(old(Abstract()))
    {
      started := false;
    }

    method Reset(temp: T)
      requires Valid()
      modifies this, queue
      ensures Valid()
      ensures Abstract() == Restarted(old(Abstract()))
    {
      ghost var before := Abstract();
      var more := true;
      while more
        invariant Valid() && started == before.started
        invariant DrainedAll(Abstract()) == DrainedAll(before)
        invariant !more ==> Abstract().queue == []
        decreases |queue.Contents()|, more
      {
        DrainOneKeepsWindow(Abstract());
        ghost var s := Abstract();
        var popped, _ := queue.Pop(temp);
        more := popped;
        if popped {
          fates := Marked(fates, s.First(), Drained);
          assert Abstract() == DrainedOne(s);
        }
      }
      started := true;
    }

    method IsEmpty() returns (empty: bool)
      requires Valid()
      ensures empty == (Abstract().queue == [])
    {
      empty := queue.Empty();
    }
  }
}
