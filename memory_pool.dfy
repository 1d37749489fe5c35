/**
 * The fixed-size object pool with an intrusive free list.
 *
 * The pool's contiguous block of `poolSize` slots is an array of `Slot`s,
 * each holding either an object or, while free, its `next` link, with NIL for
 * the null pointer; a slot pointer is its index. `freeList` is the head of
 * the list. The ghost sequence `free` is the list itself, head first: `Valid()`
 * ties every link to it, so the pool is specified by what its operations do to
 * that sequence.
 */
module MemoryPools {
  import opened Wrappers

  /** The null slot pointer. */
  const NIL: int := -1

  /** No slot appears twice. */
  ghost predicate Distinct(s: seq<nat>)
  {
    forall i, j :: 0 <= i < j < |s| ==> s[i] != s[j]
  }

  /** The slot indices 0 .. n - 1. */
  ghost function AllSlots(n: nat): (r: set<nat>)
    ensures |r| == n
    ensures forall x: nat :: x in r <==> x < n
  {
    if n == 0 then {} else AllSlots(n - 1) + {n - 1}
  }

  ghost function Elements(s: seq<nat>): set<nat>
  {
    set x | x in s
  }

  lemma {:induction false} DistinctElements(s: seq<nat>)
    requires Distinct(s)
    ensures |Elements(s)| == |s|
  {
    if s != [] {
      DistinctElements(s[1..]);
      assert Elements(s) == Elements(s[1..]) + {s[0]};
      assert s[0] !in Elements(s[1..]);
    }
  }

  lemma SubsetCard(a: set<nat>, b: set<nat>)
    requires a <= b
    ensures |a| <= |b|
  {
    assert b == a + (b - a);
  }

  /**
   * A list of distinct slots of a pool of n holds at most n of them, and it
   * holds all of them once it has n.
   */
  lemma PigeonHole(s: seq<nat>, n: nat)
    requires Distinct(s)
    requires forall i :: 0 <= i < |s| ==> s[i] < n
    ensures |s| <= n
    ensures |s| == n ==> forall x: nat :: x < n ==> x in s
  {
    DistinctElements(s);
    SubsetCard(Elements(s), AllSlots(n));
    if |s| == n {
      forall x: nat | x < n
        ensures x in s
      {
        if x !in s {
          assert x in AllSlots(n);
          assert Elements(s) <= AllSlots(n) - {x};
          SubsetCard(Elements(s), AllSlots(n) - {x});
        }
      }
    }
  }

  /** A list of distinct slots that contains every slot below n has at least n of them. */
  lemma SlotsCovered(s: seq<nat>, n: nat)
    requires Distinct(s)
    ensures (forall x: nat :: x < n ==> x in s) ==> n <= |s|
  {
    DistinctElements(s);
    if forall x: nat :: x < n ==> x in s {
      SubsetCard(AllSlots(n), Elements(s));
    }
  }

  /**
   * A slot of the pool's block: the union of a free slot's link to the next
   * free one and an allocated slot's object.
   */
  datatype Slot<T> = Link(next: int) | Object(value: T)

  /**
   * The slots listed in `free` are in the block, and each holds a link to
   * the one listed after it, the last a link to null.
   */
  ghost predicate Linked<T>(slots: seq<Slot<T>>, free: seq<nat>)
  {
    forall i :: 0 <= i < |free| ==> free[i] < |slots| && slots[free[i]] == Link(Successor(free, i))
  }

  /** What the i-th slot of the list links to: the next one, or null at the end. */
  ghost function Successor(free: seq<nat>, i: nat): int
    requires i < |free|
  {
    if i + 1 < |free| then free[i + 1] else NIL
  }

  /** Taking the head off the list and building an object in it leaves the rest linked. */
  lemma PopKeepsLinked<T>(slots: seq<Slot<T>>, free: seq<nat>, value: T)
    requires Linked(slots, free) && Distinct(free) && free != []
    ensures slots[free[0]] == Link(if |free| > 1 then free[1] else NIL)
    ensures Linked(slots[free[0] := Object(value)], free[1..])
  {
    var after, rest := slots[free[0] := Object(value)], free[1..];
    forall i | 0 <= i < |rest|
      ensures rest[i] < |after| && after[rest[i]] == Link(Successor(rest, i))
    {
      assert rest[i] == free[i + 1] != free[0];
      assert slots[free[i + 1]] == Link(Successor(free, i + 1));
    }
  }

  /** A slot not on the list, linked to the old head, becomes the new head of a linked list. */
  lemma PushKeepsLinked<T>(slots: seq<Slot<T>>, free: seq<nat>, slot: nat)
    requires Linked(slots, free) && slot < |slots| && slot !in free
    ensures Linked(slots[slot := Link(if free == [] then NIL else free[0])], [slot] + free)
  {
    var after := slots[slot := Link(if free == [] then NIL else free[0])];
    var list := [slot] + free;
    forall i | 0 <= i < |list|
      ensures list[i] < |after| && after[list[i]] == Link(Successor(list, i))
    {
      if i > 0 {
        assert list[i] == free[i - 1] != slot;
        assert slots[free[i - 1]] == Link(Successor(free, i - 1));
      }
    }
  }

  class MemoryPool<T> {
    const poolSize: nat
    const slots: array<Slot<T>>
    var freeList: int
    var availableCount: nat
    ghost var free: seq<nat>

    /** The free list is `free`: its head, each link and its null end. */
    ghost predicate Valid()
      reads this, slots
    {
      && poolSize > 0
      && slots.Length == poolSize
      && Linked(slots[..], free)
      && Distinct(free)
      && freeList == (if free == [] then NIL else free[0])
      && availableCount == |free|
    }

    /**
     * Every slot is linked to the one after it, the last to null, and all of
     * them are available.
     */
    constructor(poolSize: nat)
      requires poolSize > 0
      ensures Valid() && fresh(slots)
      ensures this.poolSize == poolSize && freeList == 0 && availableCount == poolSize
      ensures forall i :: 0 <= i < poolSize - 1 ==> slots[i] == Link(i + 1)
      ensures slots[poolSize - 1] == Link(NIL)
      ensures |free| == poolSize && forall i :: 0 <= i < poolSize ==> free[i] == i
    {
      this.poolSize := poolSize;
      var storage := new Slot<T>[poolSize];
      for i := 0 to poolSize - 1
        invariant forall k :: 0 <= k < i ==> storage[k] == Link(k + 1)
      {
        storage[i] := Link(i + 1);
      }
      storage[poolSize - 1] := Link(NIL);
      slots := storage;
      freeList := 0;
      free := seq(poolSize, i => i);
      availableCount := poolSize;
    }

    /** available: the length of the free list, never more than the pool holds. */
    function Available(): (r: nat)
      reads this, slots
      requires Valid()
      ensures r == |free| && r <= poolSize
    {
      PigeonHole(free, poolSize);
      availableCount
    }

    /** capacity */
    function Capacity(): (r: nat)
      ensures r == poolSize
    {
      poolSize
    }

    /** empty: the free list is null exactly when no slot is left. */
    predicate IsEmpty()
      reads this, slots
      requires Valid()
      ensures IsEmpty() <==> free == []
    {
      freeList == NIL
    }

    /** full: the count is the pool size exactly when every slot is on the free list. */
    predicate IsFull()
      reads this, slots
      requires Valid()
      ensures IsFull() <==> forall x: nat :: x < poolSize ==> x in free
    {
      PigeonHole(free, poolSize);
      SlotsCovered(free, poolSize);
      availableCount == poolSize
    }

    /**
     * allocate: on an empty pool the result is null and nothing changes;
     * otherwise the head slot is taken off the list, the object is built in
     * it over its link, and the slot is returned.
     */
    method Allocate(value: T) returns (r: Option<nat>)
      requires Valid()
      modifies this, slots
      ensures Valid()
      ensures r.None? <==> old(free) == []
      ensures r.None? ==> unchanged(this, slots)
      ensures r.Some? ==> r.value == old(freeList) && r.value == old(free)[0]
      ensures r.Some? ==> free == old(free)[1..] && availableCount == old(availableCount) - 1
      ensures r.Some? ==> slots[..] == old(slots[..])[r.value := Object(value)]
    {
      if freeList == NIL {
        return None;
      }
      var slot := freeList;
      PopKeepsLinked(slots[..], free, value);
      freeList := slots[slot].next;
      availableCount := availableCount - 1;
      free := free[1..];
      slots[slot] := Object(value);
      r := Some(slot);
    }

    /**
     * deallocate: null is ignored; any other slot, which must be one this
     * pool handed out and not yet given back, has its object replaced by a
     * link to the old head and becomes the head, so the next allocation takes
     * it again.
     */
    method Deallocate(slot: Option<nat>)
      requires Valid()
      requires slot.Some? ==> slot.value < poolSize && slot.value !in free
      modifies this, slots
      ensures Valid()
      ensures slot.None? ==> unchanged(this, slots)
      ensures slot.Some? ==> free == [slot.value] + old(free) && freeList == slot.value
      ensures slot.Some? ==> availableCount == old(availableCount) + 1
      ensures slot.Some? ==> slots[..] == old(slots[..])[slot.value := Link(old(freeList))]
    {
      if slot.None? {
        return;
      }
      var s := slot.value;
      PushKeepsLinked(slots[..], free, s);
      slots[s] := Link(freeList);
      freeList := s;
      availableCount := availableCount + 1;
      free := [s] + free;
    }
  }

  /**
   * A pool of three hands out slots 0, 1, 2 in order, then refuses a fourth
   * and a fifth request.
   */
  method ExhaustionScenario() returns (got: seq<Option<nat>>, left: nat)
    ensures got == [Some(0), Some(1), Some(2), None, None] && left == 0
  {
    var pool := new MemoryPool<int>(3);
    var a := pool.Allocate(0);
    var b := pool.Allocate(1);
    var c := pool.Allocate(2);
    var d := pool.Allocate(3);
    var e := pool.Allocate(4);
    got := [a, b, c, d, e];
    left := pool.Available();
  }

  /** A slot given back is the one the next allocation hands out. */
  method ReuseScenario() returns (first: Option<nat>, again: Option<nat>, left: nat)
    ensures first.Some? && again == first && left == 4
  {
    var pool := new MemoryPool<int>(5);
    first := pool.Allocate(100);
    pool.Deallocate(first);
    again := pool.Allocate(200);
    left := pool.Available();
  }
}
