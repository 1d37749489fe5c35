/**
 * The templates of the modern C++ walkthrough that carry behaviour: the
 * `max_value`, `clamp` and integral `safe_divide` function templates, the
 * fixed-capacity `FixedStack`, and the circular `MessageBuffer` of the
 * message-handling example. The function templates are instantiated at the
 * mathematical integers; the class templates keep their element type and
 * take their compile-time capacity as a constructor argument.
 */
module Templates {
  import opened FixedWidth

  /** max_value: the larger of the two, and one of them. */
  function MaxValue(a: int, b: int): (r: int)
    ensures r >= a && r >= b
    ensures r == a || r == b
  {
    if a > b then a else b
  }

  /**
   * clamp: below the range gives its lower end, above it (and not below)
   * its upper end, inside it the value itself.
   */
  function Clamp(value: int, minVal: int, maxVal: int): (r: int)
    ensures minVal <= maxVal ==> minVal <= r <= maxVal
    ensures minVal <= value <= maxVal ==> r == value
  {
    if value < minVal then minVal
    else if value > maxVal then maxVal
    else value
  }

  /** Over a proper range, the clamped value is the point of the range nearest the value. */
  lemma ClampIsNearest(value: int, minVal: int, maxVal: int, x: int)
    requires minVal <= maxVal && minVal <= x <= maxVal
    ensures Abs(Clamp(value, minVal, maxVal) - value) <= Abs(x - value)
  {
  }

  /** Clamping twice is clamping once. */
  lemma ClampIdempotent(value: int, minVal: int, maxVal: int)
    requires minVal <= maxVal
    ensures Clamp(Clamp(value, minVal, maxVal), minVal, maxVal) == Clamp(value, minVal, maxVal)
  {
  }

  /** On an empty range the first test wins: values below the lower end give the lower end. */
  lemma ClampOnEmptyRange()
    ensures Clamp(5, 10, 0) == 10 && Clamp(20, 10, 0) == 0
  {
  }

  /**
   * The integral safe_divide and safe_divide_concept: 0 for a zero divisor;
   * otherwise C++ division, whose remainder has the dividend's sign and is
   * smaller than the divisor in magnitude.
   */
  function SafeDivide(a: int, b: int): (r: int)
    ensures b == 0 ==> r == 0
    ensures b != 0 && a >= 0 ==> 0 <= a - r * b < Abs(b)
    ensures b != 0 && a < 0 ==> -Abs(b) < a - r * b <= 0
  {
    if b == 0 then 0
    else
      var q, rem := TruncDiv(a, b), TruncRem(a, b);
      assert a - q * b == rem;
      q
  }

  /** The quotient rounds toward zero, unlike Dafny's own division of a negative dividend. */
  lemma SafeDivideTruncates()
    ensures SafeDivide(10, 0) == 0 && SafeDivide(-7, 2) == -3 && SafeDivide(7, -2) == -3
    ensures -7 / 2 == -4
  {
  }

  /**
   * FixedStack: `size` items in the first slots of a fixed array, the top of
   * the stack last.
   */
  class FixedStack<T(0)> {
    const capacity: nat
    const data: array<T>
    var size: nat

    ghost predicate Valid()
      reads this
    {
      data.Length == capacity && size <= capacity
    }

    /** The items on the stack, bottom first. */
    ghost function Contents(): seq<T>
      reads this, data
      requires Valid()
    {
      data[..size]
    }

    constructor(capacity: nat)
      ensures Valid() && Contents() == [] && this.capacity == capacity && fresh(data) && size == 0
    {
      this.capacity := capacity;
      data := new T[capacity];
      size := 0;
    }

    /** push: refused when full; otherwise the item goes into slot `size` and on top. */
    method Push(item: T) returns (ok: bool)
      requires Valid()
      modifies this, data
      ensures Valid()
      ensures ok <==> old(size) < capacity
      ensures !ok ==> unchanged(this, data)
      ensures ok ==> Contents() == old(Contents()) + [item] && data[old(size)] == item && size == old(size) + 1
    {
      if size >= capacity {
        return false;
      }
      data[size] := item;
      size := size + 1;
      ok := true;
    }

    /**
     * pop: refused when empty, leaving the caller's `item` as it was;
     * otherwise the top item, the one pushed last, is handed back and taken off.
     */
    method Pop(item: T) returns (ok: bool, popped: T)
      requires Valid()
      modifies this
      ensures Valid()
      ensures ok <==> old(Contents()) != []
      ensures !ok ==> unchanged(this) && popped == item
      ensures ok ==> popped == old(Contents())[old(size) - 1]
      ensures ok ==> Contents() == old(Contents())[..old(size) - 1] && size == old(size) - 1
    {
      if size == 0 {
        return false, item;
      }
      size := size - 1;
      ok, popped := true, data[size];
    }

    predicate IsEmpty()
      reads this, data
      requires Valid()
      ensures IsEmpty() <==> Contents() == []
    {
      size == 0
    }

    function Size(): (r: nat)
      reads this, data
      requires Valid()
      ensures r == |Contents()| && r <= capacity
    {
      size
    }
  }

  /**
   * MessageBuffer: `count` messages in a circular array, read from `readPos`
   * and written at `writePos`; unlike the ring buffer, every slot can be used.
   */
  class MessageBuffer<T(0)> {
    const capacity: nat
    const buffer: array<T>
    var writePos: nat
    var readPos: nat
    var count: nat

    /** A position `x` below twice the capacity, brought back into the array. */
    ghost function Wrap(x: nat): int
    {
      if x < capacity then x else x - capacity
    }

    /** The write position is always the read position moved on by the count. */
    ghost predicate Valid()
      reads this
    {
      && buffer.Length == capacity && count <= capacity
      && (capacity == 0 ==> readPos == 0 && writePos == 0)
      && (capacity > 0 ==> readPos < capacity && writePos == Wrap(readPos + count))
    }

    /** The invariant in the form `write_pos == (read_pos + count) % Capacity`. */
    lemma WritePosIsModulo()
      requires Valid() && capacity > 0
      ensures writePos == (readPos + count) % capacity
    {
      var x := readPos + count;
      if x >= capacity {
        assert x == 1 * capacity + (x - capacity);
      }
    }

    /** One slot on, back to 0 after the last: `(pos + 1) % Capacity`. */
    function Advance(pos: nat): (r: nat)
      requires pos < capacity
      ensures r < capacity
      ensures pos + 1 < capacity ==> r == pos + 1
      ensures pos + 1 == capacity ==> r == 0
    {
      (pos + 1) % capacity
    }

    /** The queued messages, oldest first, wrapping at the end of the array. */
    ghost function Contents(): seq<T>
      reads this, buffer
      requires Valid()
    {
      if readPos + count <= capacity then buffer[readPos..readPos + count]
      else buffer[readPos..] + buffer[..readPos + count - capacity]
    }

    constructor(capacity: nat)
      ensures Valid() && Contents() == [] && this.capacity == capacity && fresh(buffer)
      ensures writePos == 0 && readPos == 0 && count == 0
    {
      this.capacity := capacity;
      buffer := new T[capacity];
      writePos, readPos, count := 0, 0, 0;
    }

    /** push: refused when full; otherwise the message joins the back and the write position moves on. */
    method Push(msg: T) returns (ok: bool)
      requires Valid()
      modifies this, buffer
      ensures Valid()
      ensures ok <==> old(count) < capacity
      ensures !ok ==> unchanged(this, buffer)
      ensures ok ==> Contents() == old(Contents()) + [msg]
      ensures ok ==> readPos == old(readPos) && writePos == Advance(old(writePos)) && count == old(count) + 1
    {
      if count >= capacity {
        return false;
      }
      var at, from, n := writePos, readPos, count;
      buffer[at] := msg;
      writePos := Advance(at);
      count := count + 1;
      if from + n < capacity {
        assert at == from + n;
        assert buffer[from..from + n + 1] == old(buffer[from..from + n]) + [msg];
      } else if from + n == capacity {
        assert at == 0 && buffer[..1] == [msg];
        assert buffer[from..] == old(buffer[from..capacity]);
      } else {
        assert at < from && at + 1 == from + n + 1 - capacity;
        assert buffer[from..] == old(buffer[from..]);
        assert buffer[..at + 1] == old(buffer[..at]) + [msg];
      }
      ok := true;
    }

    /**
     * pop: refused when empty, leaving the caller's `msg` as it was;
     * otherwise the oldest message is handed back and the read position moves on.
     */
    method Pop(msg: T) returns (ok: bool, popped: T)
      requires Valid()
      modifies this
      ensures Valid()
      ensures ok <==> old(Contents()) != []
      ensures !ok ==> unchanged(this) && popped == msg
      ensures ok ==> popped == old(Contents())[0] && Contents() == old(Contents())[1..]
      ensures ok ==> writePos == old(writePos) && readPos == Advance(old(readPos)) && count == old(count) - 1
    {
      if count == 0 {
        return false, msg;
      }
      popped := buffer[readPos];
      readPos := Advance(readPos);
      count := count - 1;
      ok := true;
    }

    predicate IsEmpty()
      reads this, buffer
      requires Valid()
      ensures IsEmpty() <==> Contents() == []
    {
      count == 0
    }

    /** full: `count_ >= Capacity`, which under the invariant is every slot in use. */
    predicate IsFull()
      reads this, buffer
      requires Valid()
      ensures IsFull() <==> |Contents()| == capacity
    {
      count >= capacity
    }

    function Size(): (r: nat)
      reads this, buffer
      requires Valid()
      ensures r == |Contents()| && r <= capacity
    {
      count
    }
  }

  /** A stack of two takes two items, refuses a third and gives the two back last one first. */
  method StackScenario() returns (pushed: seq<bool>, popped: seq<int>, emptyAfter: bool)
    ensures pushed == [true, true, false] && popped == [20, 10] && emptyAfter
  {
    var stack := new FixedStack<int>(2);
    var a := stack.Push(10);
    var b := stack.Push(20);
    var c := stack.Push(30);
    var ok1, x := stack.Pop(0);
    var ok2, y := stack.Pop(0);
    var ok3, z := stack.Pop(-1);
    assert !ok3 && z == -1;
    pushed, popped := [a, b, c], [x, y];
    emptyAfter := stack.IsEmpty();
  }

  /** A buffer of two takes two messages, refuses a third and gives the two back oldest first. */
  method MessageBufferScenario() returns (pushed: seq<bool>, popped: seq<int>)
    ensures pushed == [true, true, false] && popped == [1, 2]
  {
    var messages := new MessageBuffer<int>(2);
    var a := messages.Push(1);
    var b := messages.Push(2);
    var c := messages.Push(9);
    var ok1, x := messages.Pop(0);
    var ok2, y := messages.Pop(0);
    pushed, popped := [a, b, c], [x, y];
  }

  /** A buffer of two holding one message, 2, in its last slot. */
  method OneLeftInLastSlot() returns (messages: MessageBuffer<int>)
    ensures fresh(messages) && fresh(messages.buffer) && messages.Valid() && messages.capacity == 2
    ensures messages.readPos == 1 && messages.writePos == 0 && messages.Contents() == [2]
  {
    messages := new MessageBuffer<int>(2);
    var a := messages.Push(1);
    assert messages.writePos == 1 && messages.Contents() == [1];
    var b := messages.Push(2);
    assert messages.writePos == 0 && messages.Contents() == [1, 2];
    var ok, x := messages.Pop(0);
  }

  /** A message written after the last slot wraps to slot 0 and still comes out after the older one. */
  method MessageBufferWraps() returns (popped: seq<int>)
    ensures popped == [2, 3]
  {
    var messages := OneLeftInLastSlot();
    var d := messages.Push(3);
    assert messages.writePos == 1 && messages.Contents() == [2, 3];
    var ok1, y := messages.Pop(0);
    var ok2, z := messages.Pop(0);
    popped := [y, z];
  }
}
