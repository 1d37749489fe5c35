/**
 * The single-producer single-consumer ring buffer: a fixed array of
 * `capacity` slots (the template's BufferSize), a head where the producer
 * writes and a tail where the consumer reads. One slot always stays free, so
 * a buffer of capacity N holds at most N - 1 items.
 *
 * The atomics and their memory orders are left out: each operation is one
 * sequential step here. `Contents()` is the queue the indices describe, oldest
 * first; every operation is specified by what it does to it.
 */
module RingBuffers {
  import opened Wrappers

  class RingBuffer<T(0)> {
    const capacity: nat
    const buffer: array<T>
    var head: nat
    var tail: nat

    ghost predicate Valid()
      reads this
    {
      buffer.Length == capacity && head < capacity && tail < capacity
    }

    /** The items between tail and head, oldest first, wrapping at the end of the array. */
    ghost function Contents(): seq<T>
      reads this, buffer
      requires Valid()
    {
      if head >= tail then buffer[tail..head] else buffer[tail..] + buffer[..head]
    }

    constructor(capacity: nat)
      requires capacity > 0
      ensures Valid() && Contents() == []
      ensures this.capacity == capacity && head == 0 && tail == 0 && fresh(buffer)
    {
      this.capacity := capacity;
      buffer := new T[capacity];
      head := 0;
      tail := 0;
    }

    /** next_index: one slot on, back to 0 after the last. */
    function NextIndex(current: nat): (r: nat)
      requires current < capacity
      ensures r < capacity
      ensures current + 1 < capacity ==> r == current + 1
      ensures current + 1 == capacity ==> r == 0
    {
      (current + 1) % capacity
    }

    /** size: head - tail when the queue does not wrap, capacity - tail + head when it does. */
    function Size(): (r: nat)
      reads this, buffer
      requires Valid()
      ensures r == |Contents()| && r < capacity
    {
      if head >= tail then head - tail else capacity - tail + head
    }

    /** empty: the indices meet exactly when nothing is queued. */
    predicate IsEmpty()
      reads this, buffer
      requires Valid()
      ensures IsEmpty() <==> Contents() == []
    {
      head == tail
    }

    /** full: one step past head is tail exactly when `capacity - 1` items are queued. */
    predicate IsFull()
      reads this, buffer
      requires Valid()
      ensures IsFull() <==> |Contents()| == capacity - 1
    {
      NextIndex(head) == tail
    }

    /**
     * try_push: on a full buffer nothing changes and the result is false;
     * otherwise the item is stored at head, joins the back of the queue, and
     * head moves on.
     */
    method TryPush(item: T) returns (ok: bool)
      requires Valid()
      modifies this, buffer
      ensures Valid()
      ensures ok <==> old(|Contents()|) < capacity - 1
      ensures !ok ==> unchanged(this, buffer)
      ensures ok ==> Contents() == old(Contents()) + [item]
      ensures ok ==> head == NextIndex(old(head)) && tail == old(tail)
    {
      var currentHead := head;
      var nextHead := NextIndex(currentHead);
      if nextHead == tail {
        return false;
      }
      ghost var before := Contents();
      buffer[currentHead] := item;
      head := nextHead;
      if currentHead >= tail {
        if nextHead == 0 {
          assert Contents() == buffer[tail..] + buffer[..0];
          assert buffer[tail..] == old(buffer[tail..currentHead]) + [item];
        } else {
          assert buffer[tail..head] == buffer[tail..currentHead] + [item];
        }
      } else {
        assert buffer[tail..] == old(buffer[tail..]);
        assert buffer[..head] == old(buffer[..currentHead]) + [item];
      }
      ok := true;
    }

    /**
     * try_pop: on an empty buffer nothing changes and the result is none;
     * otherwise the item at tail, the oldest, is returned and tail moves on.
     */
    method TryPop() returns (r: Option<T>)
      requires Valid()
      modifies this
      ensures Valid()
      ensures r.None? <==> old(Contents()) == []
      ensures r.None? ==> unchanged(this)
      ensures r.Some? ==> r.value == old(Contents())[0] && Contents() == old(Contents())[1..]
      ensures r.Some? ==> tail == NextIndex(old(tail)) && head == old(head)
    {
      var currentTail := tail;
      if currentTail == head {
        return None;
      }
      var item := buffer[currentTail];
      tail := NextIndex(currentTail);
      if currentTail > head && tail == 0 {
        assert old(Contents()) == [item] + buffer[..head];
      }
      r := Some(item);
    }
  }

  /**
   * A buffer of three slots takes two items, refuses the third, and gives
   * them back in the order they went in.
   */
  method FifoScenario() returns (accepted: seq<bool>, popped: seq<Option<int>>)
    ensures accepted == [true, true, false]
    ensures popped == [Some(10), Some(20), None]
  {
    var rb := new RingBuffer<int>(3);
    var a1 := rb.TryPush(10);
    var a2 := rb.TryPush(20);
    var a3 := rb.TryPush(30);
    assert rb.Contents() == [10, 20];
    var p1 := rb.TryPop();
    var p2 := rb.TryPop();
    var p3 := rb.TryPop();
    accepted := [a1, a2, a3];
    popped := [p1, p2, p3];
  }

  /** An empty buffer of three slots whose indices both sit at the last slot. */
  method EmptyAtLastSlot() returns (rb: RingBuffer<int>)
    ensures fresh(rb) && fresh(rb.buffer) && rb.Valid() && rb.capacity == 3
    ensures rb.head == 2 && rb.tail == 2 && rb.Contents() == []
  {
    rb := new RingBuffer<int>(3);
    var a1 := rb.TryPush(0);
    var a2 := rb.TryPush(0);
    var p1 := rb.TryPop();
    var p2 := rb.TryPop();
  }

  /** Head, then tail, wrap past the end of the array and the order is kept. */
  method WrapScenario() returns (popped: seq<Option<int>>)
    ensures popped == [Some(1), Some(2), None]
  {
    var rb := EmptyAtLastSlot();
    var a1 := rb.TryPush(1);
    var a2 := rb.TryPush(2);
    assert rb.head == 1 && rb.Contents() == [1, 2];
    var p1 := rb.TryPop();
    var p2 := rb.TryPop();
    var p3 := rb.TryPop();
    popped := [p1, p2, p3];
  }
}
