/** The bounded single-producer single-consumer ring of sdk/fins/spsc_queue.hpp, run one call at a time.
    The interleaved, atomic-access-by-atomic-access version is in SpscInterleaving. */
module SpscQueue {

  /** The cyclic slots from tail up to (not including) head, oldest first. */
  function Live<T>(slots: seq<T>, tail: nat, head: nat): (live: seq<T>)
    requires tail < |slots| && head < |slots|
    ensures |live| == Occupancy(|slots|, tail, head)
  {
    if tail <= head then slots[tail..head] else slots[tail..] + slots[..head]
  }

  /** The number of occupied slots of a ring with `n` slots. */
  function Occupancy(n: nat, tail: nat, head: nat): nat
    requires tail < n && head < n
  {
    if tail <= head then head - tail else n - (tail - head)
  }

  function Next(i: nat, n: nat): (j: nat)
    requires i < n
    ensures j < n
    ensures j == if i + 1 == n then 0 else i + 1
  {
    (i + 1) % n
  }

  lemma LiveAt<T>(slots: seq<T>, tail: nat, head: nat, k: nat)
    requires tail < |slots| && head < |slots| && k < Occupancy(|slots|, tail, head)
    ensures Live(slots, tail, head)[k] == slots[if tail + k < |slots| then tail + k else tail + k - |slots|]
  {
  }

  /** Filling the free slot at head and publishing it appends one item. */
  lemma LiveAppend<T>(slots: seq<T>, tail: nat, head: nat, item: T)
    requires tail < |slots| && head < |slots| && Next(head, |slots|) != tail
    ensures Live(slots[head := item], tail, Next(head, |slots|)) == Live(slots, tail, head) + [item]
  {
    var n := |slots|;
    var filled := slots[head := item];
    if tail <= head && head + 1 == n {
      assert filled[tail..] + filled[..0] == slots[tail..head] + [item];
    } else if tail <= head {
      assert filled[tail..head + 1] == slots[tail..head] + [item];
    } else {
      assert filled[tail..] + filled[..head + 1] == slots[tail..] + slots[..head] + [item];
    }
  }

  /** Advancing tail removes exactly the oldest item. */
  lemma LiveRemove<T>(slots: seq<T>, tail: nat, head: nat)
    requires tail < |slots| && head < |slots| && tail != head
    ensures Live(slots, tail, head) == [slots[tail]] + Live(slots, Next(tail, |slots|), head)
  {
  }

  /** A ring reports full exactly when it holds Capacity items, one slot staying free. */
  lemma FullIffAtCapacity(n: nat, tail: nat, head: nat)
    requires tail < n && head < n
    ensures Next(head, n) == tail <==> Occupancy(n, tail, head) == n - 1
  {
  }

  class SPSCQueue<T(0)> {
    const capacity: nat
    const buffer: array<T>
    var head: nat
    var tail: nat

    ghost predicate Valid()
      reads this
    {
      buffer.Length == capacity + 1 && head <= capacity && tail <= capacity
    }

    ghost function Contents(): (items: seq<T>)
      requires Valid()
      reads this, buffer
      ensures |items| <= capacity
    {
      Live(buffer[..], tail, head)
    }

    constructor (capacity: nat)
      ensures Valid() && fresh(buffer) && this.capacity == capacity
      ensures Contents() == []
    {
      this.capacity := capacity;
      buffer := new T[capacity + 1];
      head, tail := 0, 0;
    }

    method Push(item: T) returns (ok: bool)
      requires Valid()
      modifies this, buffer
      ensures Valid()
      ensures ok == (|old(Contents())| < capacity)
      ensures Contents() == if ok then old(Contents()) + [item] else old(Contents())
    {
      var currentHead := head;
      var nextHead := (currentHead + 1) % (capacity + 1);
      FullIffAtCapacity(capacity + 1, tail, currentHead);
      if nextHead == tail {
        return false;
      }
      LiveAppend(buffer[..], tail, currentHead, item);
      buffer[currentHead] := item;
      head := nextHead;
      assert buffer[..] == old(buffer[..])[currentHead := item];
      return true;
    }

    /** `item` is left as passed in when the queue is empty. */
    method Pop(before: T) returns (ok: bool, item: T)
      requires Valid()
      modifies this
      ensures Valid()
      ensures ok == (old(Contents()) != [])
      ensures ok ==> item == old(Contents())[0] && Contents() == old(Contents())[1..]
      ensures !ok ==> item == before && Contents() == old(Contents())
    {
      var currentTail := tail;
      if currentTail == head {
        return false, before;
      }
      LiveRemove(buffer[..], currentTail, head);
      item := buffer[currentTail];
      tail := (currentTail + 1) % (capacity + 1);
      return true, item;
    }

    method Empty() returns (isEmpty: bool)
      requires Valid()
      ensures isEmpty == (Contents() == [])
    {
      isEmpty := head == tail;
    }

    method ReadAvailable() returns (count: nat)
      requires Valid()
      ensures count == |Contents()|
    {
      if head >= tail {
        return head - tail;
      }
      return (capacity + 1) - (tail - head);
    }
  }
}
