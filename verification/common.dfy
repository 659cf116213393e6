/** Small shared vocabulary: an optional value and left folds of `+`. */
module Common {

  /** Swift's optional: `nil` or a wrapped value. */
  datatype Option<T> = None | Some(value: T)

  /** Sum of a sequence of reals, `reduce(0, +)` on exact arithmetic. */
  function SumReals(s: seq<real>): real
  {
    if |s| == 0 then 0.0 else s[0] + SumReals(s[1..])
  }

  /** Sum of a sequence of integers, `reduce(0, +)`. */
  function SumInts(s: seq<int>): int
  {
    if |s| == 0 then 0 else s[0] + SumInts(s[1..])
  }

  lemma {:induction false} SumRealsAppend(a: seq<real>, b: seq<real>)
    ensures SumReals(a + b) == SumReals(a) + SumReals(b)
  {
    if |a| == 0 {
      assert a + b == b;
    } else {
      assert (a + b)[1..] == a[1..] + b;
      SumRealsAppend(a[1..], b);
    }
  }

  /** Extending a prefix by one element adds that element to the prefix sum. */
  lemma SumRealsPrefixStep(s: seq<real>, i: nat)
    requires i < |s|
    ensures SumReals(s[..i + 1]) == SumReals(s[..i]) + s[i]
  {
    assert s[..i + 1] == s[..i] + [s[i]];
    SumRealsAppend(s[..i], [s[i]]);
  }

  lemma {:induction false} SumIntsAppend(a: seq<int>, b: seq<int>)
    ensures SumInts(a + b) == SumInts(a) + SumInts(b)
  {
    if |a| == 0 {
      assert a + b == b;
    } else {
      assert (a + b)[1..] == a[1..] + b;
      SumIntsAppend(a[1..], b);
    }
  }

  lemma {:induction false} SumIntsNonNegative(s: seq<int>)
    requires forall i :: 0 <= i < |s| ==> s[i] >= 0
    ensures SumInts(s) >= 0
  {
    if |s| > 0 {
      SumIntsNonNegative(s[1..]);
    }
  }
}
