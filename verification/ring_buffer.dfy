/**
 * The growable FIFO ring buffer that holds sample buffers awaiting playback.
 * Like the Swift struct it models, a ring is a value: every operation returns
 * the new ring. Storage is a sequence of optional slots; the live elements are
 * the `count` slots starting at `head`, wrapping around the end of the storage.
 */
module RingBuffers {
  import opened Common

  datatype Ring<T> = Ring(storage: seq<Option<T>>, head: nat, count: nat)

  function Capacity<T>(r: Ring<T>): nat
  {
    |r.storage|
  }

  /** Physical slot of the `i`-th oldest element: `(head + i) % capacity`, written as one wrap. */
  function Slot<T>(r: Ring<T>, i: nat): (k: nat)
    requires r.head < |r.storage| && i < |r.storage|
    ensures k < |r.storage|
  {
    if r.head + i < |r.storage| then r.head + i else r.head + i - |r.storage|
  }

  /** Representation invariant: a non-empty storage whose `count` live slots are all occupied. */
  predicate Valid<T>(r: Ring<T>)
  {
    && 0 < |r.storage|
    && r.head < |r.storage|
    && r.count <= |r.storage|
    && forall i :: 0 <= i < r.count ==> r.storage[Slot(r, i)].Some?
  }

  /** The queued elements, oldest first: the abstract value the ring stands for. */
  function Contents<T>(r: Ring<T>): (xs: seq<T>)
    requires Valid(r)
    ensures |xs| == r.count
  {
    seq(r.count, i requires 0 <= i < r.count => r.storage[Slot(r, i)].value)
  }

  predicate IsEmpty<T>(r: Ring<T>)
  {
    r.count == 0
  }

  predicate IsFull<T>(r: Ring<T>)
  {
    r.count == |r.storage|
  }

  /** A fresh ring of the given capacity. */
  function Empty<T>(capacity: nat): (r: Ring<T>)
    requires capacity > 0
    ensures Valid(r) && Contents(r) == [] && Capacity(r) == capacity
    ensures IsEmpty(r) && !IsFull(r)
  {
    Ring(seq(capacity, _ => None), 0, 0)
  }

  /** Doubles the capacity and re-linearizes the live elements at slot 0. */
  function Grow<T>(r: Ring<T>): (g: Ring<T>)
    requires Valid(r)
    ensures Valid(g) && g.head == 0
    ensures Contents(g) == Contents(r)
    ensures Capacity(g) == 2 * Capacity(r)
  {
    var g := Ring(seq(2 * |r.storage|, j requires 0 <= j < 2 * |r.storage| =>
                    if j < r.count then r.storage[Slot(r, j)] else None), 0, r.count);
    assert forall i :: 0 <= i < g.count ==> Slot(g, i) == i;
    g
  }

  /**
   * Appends `x`. Never fails: a full ring first doubles its capacity, a ring
   * with room keeps it.
   */
  function Enqueue<T>(r: Ring<T>, x: T): (res: (Ring<T>, bool))
    requires Valid(r)
    ensures res.1
    ensures Valid(res.0)
    ensures Contents(res.0) == Contents(r) + [x]
    ensures Capacity(res.0) == if IsFull(r) then 2 * Capacity(r) else Capacity(r)
    ensures res.0.head == if IsFull(r) then 0 else r.head
  {
    var g := if IsFull(r) then Grow(r) else r;
    PlaceAtTail(g, x);
    (Ring(g.storage[Slot(g, g.count) := Some(x)], g.head, g.count + 1), true)
  }

  /** Writing into the first free slot of a ring with room appends to its contents. */
  lemma PlaceAtTail<T>(g: Ring<T>, x: T)
    requires Valid(g) && g.count < |g.storage|
    ensures var q := Ring(g.storage[Slot(g, g.count) := Some(x)], g.head, g.count + 1);
      Valid(q) && Contents(q) == Contents(g) + [x]
  {
    var tail := Slot(g, g.count);
    var q := Ring(g.storage[tail := Some(x)], g.head, g.count + 1);
    forall i | 0 <= i < g.count
      ensures Slot(q, i) == Slot(g, i) != tail
    {
    }
    assert Valid(q);
    assert Contents(q) == Contents(g) + [x] by {
      forall i | 0 <= i < q.count
        ensures Contents(q)[i] == (Contents(g) + [x])[i]
      {
      }
    }
  }

  /** Removes and returns the oldest element; nil and no change when empty. */
  function Dequeue<T>(r: Ring<T>): (res: (Option<T>, Ring<T>))
    requires Valid(r)
    ensures Valid(res.1) && Capacity(res.1) == Capacity(r)
    ensures r.count == 0 ==> res.0.None? && res.1 == r
    ensures r.count > 0 ==> res.0 == Some(Contents(r)[0]) && Contents(res.1) == Contents(r)[1..]
    ensures r.count > 0 ==> res.1.head == if r.head + 1 < Capacity(r) then r.head + 1 else 0
  {
    if r.count == 0 then (None, r)
    else
      var next := if r.head + 1 < |r.storage| then r.head + 1 else 0;
      var q := Ring(r.storage[r.head := None], next, r.count - 1);
      assert forall i :: 0 <= i < q.count ==> Slot(q, i) == Slot(r, i + 1) != r.head;
      (r.storage[r.head], q)
  }

  /** The oldest element, left in place; nil when empty. */
  function Peek<T>(r: Ring<T>): (o: Option<T>)
    requires Valid(r)
    ensures r.count == 0 ==> o.None?
    ensures r.count > 0 ==> o == Some(Contents(r)[0])
  {
    if r.count == 0 then None else r.storage[r.head]
  }

  /** Discards every element and keeps the capacity. */
  function Flush<T>(r: Ring<T>): (f: Ring<T>)
    requires Valid(r)
    ensures Valid(f) && Contents(f) == [] && Capacity(f) == Capacity(r)
  {
    Empty(|r.storage|)
  }

  /** Enqueues every element of `xs` in order. */
  function EnqueueAll<T>(r: Ring<T>, xs: seq<T>): (q: Ring<T>)
    requires Valid(r)
    ensures Valid(q)
    ensures Contents(q) == Contents(r) + xs
    ensures Capacity(q) >= Capacity(r)
    ensures r.head == 0 ==> q.head == 0
    decreases |xs|
  {
    if |xs| == 0 then r
    else
      var q := EnqueueAll(Enqueue(r, xs[0]).0, xs[1..]);
      assert Contents(r) + [xs[0]] + xs[1..] == Contents(r) + xs;
      q
  }

  /** Dequeues until the ring reports empty, collecting the elements in dequeue order. */
  function DequeueAll<T>(r: Ring<T>): (xs: seq<T>)
    requires Valid(r)
    ensures xs == Contents(r)
    decreases r.count
  {
    if r.count == 0 then []
    else
      var (x, q) := Dequeue(r);
      [x.value] + DequeueAll(q)
  }

  /** Enqueuing a run into a fresh ring and dequeuing everything returns the run unchanged. */
  lemma RoundTrip<T>(capacity: nat, xs: seq<T>)
    requires capacity > 0
    ensures DequeueAll(EnqueueAll(Empty(capacity), xs)) == xs
  {
  }

  /** Capacity reached from `capacity` when `n` elements must fit: double until they do. */
  function GrownCapacity(capacity: nat, n: nat): (c: nat)
    requires capacity > 0
    decreases n - capacity
  {
    if n <= capacity then capacity else GrownCapacity(2 * capacity, n)
  }

  /**
   * Growth happens only on an enqueue into a full ring, so after a run of
   * enqueues the capacity is the original one doubled just often enough.
   */
  lemma {:induction false} EnqueueAllCapacity<T>(r: Ring<T>, xs: seq<T>)
    requires Valid(r)
    ensures Capacity(EnqueueAll(r, xs)) == GrownCapacity(Capacity(r), r.count + |xs|)
    decreases |xs|
  {
    if |xs| == 0 {
    } else {
      var q := Enqueue(r, xs[0]).0;
      EnqueueAllCapacity(q, xs[1..]);
      assert q.count == r.count + 1;
      if IsFull(r) {
        assert GrownCapacity(Capacity(r), r.count + |xs|) == GrownCapacity(2 * Capacity(r), r.count + |xs|);
      }
    }
  }

  /** Ten enqueues into a ring of capacity 2 leave capacity 16 and all ten elements in order. */
  lemma RepeatedResizes()
    ensures var r := EnqueueAll(Empty<int>(2), [1, 2, 3, 4, 5, 6, 7, 8, 9, 10]);
      && Capacity(r) == 16 && r.count == 10
      && DequeueAll(r) == [1, 2, 3, 4, 5, 6, 7, 8, 9, 10]
  {
    EnqueueAllCapacity(Empty<int>(2), [1, 2, 3, 4, 5, 6, 7, 8, 9, 10]);
    assert GrownCapacity(2, 10) == 16;
  }

  /**
   * Capacity 4 holding four elements, two dequeued so the head is off slot 0,
   * then three more enqueued: capacity becomes 8 and the order of the five
   * remaining elements survives the growth.
   */
  lemma ResizeWithOffsetHead<T>(x1: T, x2: T, x3: T, x4: T, x5: T, x6: T, x7: T)
    ensures
      var r0 := EnqueueAll(Empty<T>(4), [x1, x2, x3, x4]);
      var r1 := Dequeue(Dequeue(r0).1).1;
      var r2 := EnqueueAll(r1, [x5, x6, x7]);
      && r1.head != 0
      && Capacity(r2) == 8
      && DequeueAll(r2) == [x3, x4, x5, x6, x7]
  {
    var r0 := EnqueueAll(Empty<T>(4), [x1, x2, x3, x4]);
    EnqueueAllCapacity(Empty<T>(4), [x1, x2, x3, x4]);
    DequeueTwiceFromStart(r0, x1, x2, x3, x4);
    EnqueueThreeIntoHalfFull(Dequeue(Dequeue(r0).1).1, x3, x4, x5, x6, x7);
  }

  /** Two dequeues from a capacity-4 ring whose head is slot 0 leave the head at slot 2. */
  lemma DequeueTwiceFromStart<T>(r0: Ring<T>, x1: T, x2: T, x3: T, x4: T)
    requires Valid(r0) && Capacity(r0) == 4 && r0.head == 0 && Contents(r0) == [x1, x2, x3, x4]
    ensures var r1 := Dequeue(Dequeue(r0).1).1;
      r1.head == 2 && Contents(r1) == [x3, x4] && Valid(r1) && Capacity(r1) == 4
  {
    var d := Dequeue(r0).1;
    assert d.head == 1 && Contents(d) == [x2, x3, x4];
  }

  /** Three enqueues into a capacity-4 ring holding two elements grow it once, keeping the order. */
  lemma EnqueueThreeIntoHalfFull<T>(r1: Ring<T>, x3: T, x4: T, x5: T, x6: T, x7: T)
    requires Valid(r1) && Capacity(r1) == 4 && Contents(r1) == [x3, x4]
    ensures var r2 := EnqueueAll(r1, [x5, x6, x7]);
      Capacity(r2) == 8 && DequeueAll(r2) == [x3, x4, x5, x6, x7]
  {
    EnqueueAllCapacity(r1, [x5, x6, x7]);
    assert GrownCapacity(4, 5) == 8;
    assert [x3, x4] + [x5, x6, x7] == [x3, x4, x5, x6, x7];
  }

  /** A full ring of capacity 3 is no longer full after a fourth enqueue. */
  lemma GrowthLeavesRoom()
    ensures
      var r := EnqueueAll(Empty<int>(3), [1, 2, 3]);
      && IsFull(r)
      && !IsFull(Enqueue(r, 4).0)
      && DequeueAll(Enqueue(r, 4).0) == [1, 2, 3, 4]
  {
    EnqueueAllCapacity(Empty<int>(3), [1, 2, 3]);
  }

  /**
   * The copy performed on growth, as a loop over a fresh array: the live
   * elements are copied oldest first into slots 0.., the rest left empty.
   */
  method GrowByCopy<T>(r: Ring<T>) returns (g: Ring<T>)
    requires Valid(r)
    ensures g == Grow(r)
  {
    var a := new Option<T>[2 * |r.storage|](_ => None);
    var j := 0;
    while j < r.count
      invariant 0 <= j <= r.count
      invariant forall k :: 0 <= k < j ==> a[k] == r.storage[Slot(r, k)]
      invariant forall k :: j <= k < a.Length ==> a[k].None?
    {
      a[j] := r.storage[Slot(r, j)];
      j := j + 1;
    }
    g := Ring(a[..], 0, r.count);
  }
}
