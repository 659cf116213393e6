/**
 * A pair of sample queues that tracks the duration not yet played: buffers
 * wait in `pending`, move to `processed` when handed to a sink, and leave
 * `processed` (their duration subtracted) once the clock check lets them go.
 */
module AccumulatingBuffers {
  import opened Common
  import opened SampleTime
  import opened RingBuffers

  datatype Accumulating = Accumulating(pending: Ring<Sample>, processed: Ring<Sample>, unprocessedDuration: real)

  predicate Valid(a: Accumulating)
  {
    RingBuffers.Valid(a.pending) && RingBuffers.Valid(a.processed)
  }

  /** The tracked duration is the total duration of the buffers held in either queue. */
  ghost predicate Balanced(a: Accumulating)
  {
    && Valid(a)
    && a.unprocessedDuration == SumDurations(Contents(a.pending)) + SumDurations(Contents(a.processed))
  }

  function NewAccumulating(capacity: nat, processedCapacity: nat): (a: Accumulating)
    requires 0 < capacity && 0 < processedCapacity
    ensures Valid(a) && Contents(a.pending) == [] && Contents(a.processed) == []
    ensures a.unprocessedDuration == 0.0
  {
    Accumulating(Empty(capacity), Empty(processedCapacity), 0.0)
  }

  /** Queues `b` as pending and adds its duration. */
  function Enqueue(a: Accumulating, b: Sample): (a': Accumulating)
    requires Valid(a)
    ensures Valid(a')
    ensures Contents(a'.pending) == Contents(a.pending) + [b] && a'.processed == a.processed
    ensures a'.unprocessedDuration == a.unprocessedDuration + Time(b).duration
  {
    a.(pending := RingBuffers.Enqueue(a.pending, b).0,
       unprocessedDuration := a.unprocessedDuration + Time(b).duration)
  }

  /** Hands out the oldest pending buffer and records it as processed; nil and no change when none is pending. */
  function Dequeue(a: Accumulating): (res: (Option<Sample>, Accumulating))
    requires Valid(a)
    ensures Valid(res.1)
    ensures Contents(a.pending) == [] ==> res.0.None? && res.1 == a
    ensures Contents(a.pending) != [] ==>
      && res.0 == Some(Contents(a.pending)[0])
      && Contents(res.1.pending) == Contents(a.pending)[1..]
      && Contents(res.1.processed) == Contents(a.processed) + [Contents(a.pending)[0]]
      && res.1.unprocessedDuration == a.unprocessedDuration
  {
    var (b, pending) := RingBuffers.Dequeue(a.pending);
    match b
    case None => (None, a)
    case Some(buffer) =>
      (Some(buffer), a.(pending := pending, processed := RingBuffers.Enqueue(a.processed, buffer).0))
  }

  /**
   * Pops processed buffers from the front while the oldest one ends at or
   * after `ts`, subtracting each popped duration. The popped buffers are a
   * prefix of the processed queue; the loop stops at the first buffer that
   * ends before `ts`, or when the queue is empty.
   */
  function UpdateDuration(a: Accumulating, ts: real): (a': Accumulating)
    requires Valid(a)
    ensures Valid(a') && a'.pending == a.pending
    ensures |Contents(a'.processed)| <= |Contents(a.processed)|
    ensures Contents(a.processed) == PoppedBy(a, a') + Contents(a'.processed)
    ensures forall k :: 0 <= k < |PoppedBy(a, a')| ==> Time(PoppedBy(a, a')[k]).End() >= ts
    ensures Contents(a'.processed) != [] ==> Time(Contents(a'.processed)[0]).End() < ts
    ensures a'.unprocessedDuration == a.unprocessedDuration - SumDurations(PoppedBy(a, a'))
    decreases a.processed.count
  {
    match Peek(a.processed)
    case None => a
    case Some(next) =>
      if Time(next).End() >= ts then
        var a1 := a.(processed := RingBuffers.Dequeue(a.processed).1,
                     unprocessedDuration := a.unprocessedDuration - Time(next).duration);
        var a' := UpdateDuration(a1, ts);
        UpdateStep(a, a1, a', next, ts);
        a'
      else a
  }

  /** The buffers an update took off the front of the processed queue. */
  function PoppedBy(a: Accumulating, a': Accumulating): seq<Sample>
    requires Valid(a) && Valid(a')
    requires |Contents(a'.processed)| <= |Contents(a.processed)|
  {
    Contents(a.processed)[..|Contents(a.processed)| - |Contents(a'.processed)|]
  }

  lemma UpdateStep(a: Accumulating, a1: Accumulating, a': Accumulating, next: Sample, ts: real)
    requires Valid(a) && Valid(a1) && Valid(a')
    requires Contents(a.processed) != [] && next == Contents(a.processed)[0]
    requires Contents(a1.processed) == Contents(a.processed)[1..]
    requires a1.unprocessedDuration == a.unprocessedDuration - next.timing.duration
    requires |Contents(a'.processed)| <= |Contents(a1.processed)|
    requires Contents(a1.processed) == PoppedBy(a1, a') + Contents(a'.processed)
    requires Time(next).End() >= ts
    requires forall k :: 0 <= k < |PoppedBy(a1, a')| ==> Time(PoppedBy(a1, a')[k]).End() >= ts
    requires a'.unprocessedDuration == a1.unprocessedDuration - SumDurations(PoppedBy(a1, a'))
    ensures Contents(a.processed) == PoppedBy(a, a') + Contents(a'.processed)
    ensures forall k :: 0 <= k < |PoppedBy(a, a')| ==> Time(PoppedBy(a, a')[k]).End() >= ts
    ensures a'.unprocessedDuration == a.unprocessedDuration - SumDurations(PoppedBy(a, a'))
  {
    var popped := PoppedBy(a, a');
    assert popped == [next] + PoppedBy(a1, a');
    SumDurationsCons(popped);
    assert popped[1..] == PoppedBy(a1, a');
  }

  /** Empties both queues, keeping their capacities, and zeroes the duration. */
  function Flush(a: Accumulating): (a': Accumulating)
    requires Valid(a)
    ensures Balanced(a')
    ensures Contents(a'.pending) == [] && Contents(a'.processed) == [] && a'.unprocessedDuration == 0.0
    ensures Capacity(a'.pending) == Capacity(a.pending) && Capacity(a'.processed) == Capacity(a.processed)
  {
    Accumulating(RingBuffers.Flush(a.pending), RingBuffers.Flush(a.processed), 0.0)
  }

  lemma NewAccumulatingBalanced(capacity: nat, processedCapacity: nat)
    requires 0 < capacity && 0 < processedCapacity
    ensures Balanced(NewAccumulating(capacity, processedCapacity))
  {
  }

  lemma EnqueueKeepsBalance(a: Accumulating, b: Sample)
    requires Balanced(a)
    ensures Balanced(Enqueue(a, b))
  {
    SumDurationsAppend(Contents(a.pending), [b]);
    SumDurationsCons([b]);
  }

  lemma DequeueKeepsBalance(a: Accumulating)
    requires Balanced(a)
    ensures Balanced(Dequeue(a).1)
  {
    var a' := Dequeue(a).1;
    if Contents(a.pending) != [] {
      var x := Contents(a.pending)[0];
      SumDurationsCons(Contents(a.pending));
      SumDurationsAppend(Contents(a.processed), [x]);
      SumDurationsCons([x]);
    }
  }

  lemma UpdateDurationKeepsBalance(a: Accumulating, ts: real)
    requires Balanced(a)
    ensures Balanced(UpdateDuration(a, ts))
  {
    var a' := UpdateDuration(a, ts);
    SumDurationsAppend(PoppedBy(a, a'), Contents(a'.processed));
  }
}
