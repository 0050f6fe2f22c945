/** The ring both queues keep: a power-of-two buffer used cyclically between two indices. The histories record what was
    enqueued and dequeued, in the order of the index stores. */
module BoundedRing {
  import opened Masks

  type Item = x: int | 0 <= x < 0x1_0000_0000

  datatype Ring = Ring(capacity: nat, head: nat, tail: nat, buffer: seq<Item>, enqueued: seq<Item>, dequeued: seq<Item>)

  /** The index after this one, by the mask. */
  function Next(index: nat, capacity: nat): nat
    requires capacity > 0
  {
    And(index + 1, capacity - 1)
  }

  /** The abstract queue: what was enqueued and not yet dequeued, oldest first. */
  function Waiting(r: Ring): seq<Item> {
    if |r.dequeued| <= |r.enqueued| then r.enqueued[|r.dequeued|..] else []
  }

  ghost predicate InRing(r: Ring, k: nat)
    requires k < |r.enqueued| && |r.buffer| == r.capacity > 0
  {
    r.buffer[k % r.capacity] == r.enqueued[k]
  }

  /** The indices are the lengths of the histories modulo the capacity, and every waiting item is in its cell. */
  ghost predicate Holds(r: Ring) {
    && ValidCapacity(r.capacity) && |r.buffer| == r.capacity
    && r.head == |r.enqueued| % r.capacity
    && r.tail == |r.dequeued| % r.capacity
    && r.dequeued <= r.enqueued
    && |r.enqueued| - |r.dequeued| < r.capacity
    && forall k: nat | |r.dequeued| <= k < |r.enqueued| :: InRing(r, k)
  }

  ghost predicate HasRoom(r: Ring) {
    |r.enqueued| - |r.dequeued| < r.capacity - 1
  }

  /** Both index tests are exact: full shows as next head = tail, empty as tail = head. */
  lemma IndexTests(r: Ring)
    requires Holds(r)
    ensures Next(r.head, r.capacity) == r.tail <==> |r.enqueued| - |r.dequeued| == r.capacity - 1
    ensures r.tail == r.head <==> |r.enqueued| == |r.dequeued|
  {
    NextIndex(|r.enqueued|, r.capacity);
    if |r.enqueued| + 1 == |r.dequeued| + r.capacity {
      FullLap(|r.dequeued|, r.capacity);
    } else if Next(r.head, r.capacity) == r.tail {
      SameCell(|r.dequeued|, |r.enqueued| + 1, r.capacity);
    }
    if r.tail == r.head {
      SameCell(|r.dequeued|, |r.enqueued|, r.capacity);
    }
  }

  /** With room left, a write at the head overwrites no waiting item. */
  lemma WriteKeeps(r: Ring, item: Item)
    requires Holds(r) && HasRoom(r)
    ensures r.head < |r.buffer| && Holds(r.(buffer := r.buffer[r.head := item]))
  {
    var r' := r.(buffer := r.buffer[r.head := item]);
    forall k: nat | |r.dequeued| <= k < |r.enqueued|
      ensures InRing(r', k)
    {
      assert InRing(r, k);
      if k % r.capacity == |r.enqueued| % r.capacity {
        SameCell(k, |r.enqueued|, r.capacity);
      }
    }
  }

  /** Moving the head past a written cell enqueues what is in it. */
  lemma PublishKeeps(r: Ring, item: Item)
    requires Holds(r) && HasRoom(r) && r.buffer[r.head] == item
    ensures Holds(r.(head := Next(r.head, r.capacity), enqueued := r.enqueued + [item]))
  {
    var r' := r.(head := Next(r.head, r.capacity), enqueued := r.enqueued + [item]);
    NextIndex(|r.enqueued|, r.capacity);
    forall k: nat | |r'.dequeued| <= k < |r'.enqueued|
      ensures InRing(r', k)
    {
      assert k < |r.enqueued| ==> InRing(r, k);
    }
  }

  /** The cell at the tail holds the oldest item, and moving the tail past it dequeues it. */
  lemma TakeKeeps(r: Ring)
    requires Holds(r) && Waiting(r) != []
    ensures r.tail < |r.buffer| && r.buffer[r.tail] == Waiting(r)[0]
    ensures Holds(r.(tail := Next(r.tail, r.capacity), dequeued := r.dequeued + [Waiting(r)[0]]))
  {
    var r' := r.(tail := Next(r.tail, r.capacity), dequeued := r.dequeued + [Waiting(r)[0]]);
    NextIndex(|r.dequeued|, r.capacity);
    assert InRing(r, |r.dequeued|);
    forall k: nat | |r'.dequeued| <= k < |r'.enqueued|
      ensures InRing(r', k)
    {
      assert InRing(r, k);
    }
  }

  /** What the ring physically holds: the cells from tail up to head, going round the end. */
  function CyclicSlice(r: Ring): seq<Item>
    requires |r.buffer| == r.capacity > 0
  {
    seq((r.head - r.tail) % r.capacity, i requires i >= 0 => r.buffer[(r.tail + i) % r.capacity])
  }

  /** Dequeued items and the slice together are the enqueued ones. */
  lemma SliceIsTheRest(r: Ring)
    requires Holds(r)
    ensures r.dequeued + CyclicSlice(r) == r.enqueued && |CyclicSlice(r)| <= r.capacity - 1
  {
    SliceIsWaiting(r);
  }

  lemma SliceIsWaiting(r: Ring)
    requires Holds(r)
    ensures CyclicSlice(r) == Waiting(r)
  {
    var n := |r.enqueued| - |r.dequeued|;
    LapDistance(|r.dequeued|, |r.enqueued|, r.capacity);
    forall i: nat | i < n
      ensures CyclicSlice(r)[i] == Waiting(r)[i]
    {
      OffsetCell(|r.dequeued|, i, r.capacity);
      assert InRing(r, |r.dequeued| + i);
    }
  }
}
