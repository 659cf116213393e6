/**
 * Adaptive-bitrate policy: a moving window of observed download rates whose
 * integer mean is the bandwidth estimate, the variant selector, and the
 * look-ahead test that decides whether to fetch at all.
 */
module Abr {
  import opened Common
  import opened Playlists

  /** Look-ahead horizon in seconds. */
  const BufferingDuration: real := 30.0
  /** Margin used when `urgent` is false. */
  const NormalBitrateMargin: real := 1.3
  /** Margin used when `urgent` is true. */
  const UrgentBitrateMargin: real := 2.0
  /** Bound on the sample window. */
  const MaxSamples: nat := 10

  /** The estimator state: the sample window (bits per second) and the current estimate. */
  datatype Estimator = Estimator(samples: seq<nat>, estimate: nat)

  /** One zero sample and a zero estimate, so the first decision is conservative. */
  function InitialEstimator(): Estimator
  {
    Estimator([0], 0)
  }

  /** The invariant every reachable estimator keeps. */
  ghost predicate WellFormed(e: Estimator)
  {
    && 1 <= |e.samples| <= MaxSamples
    && e.estimate * |e.samples| <= SumInts(e.samples) < (e.estimate + 1) * |e.samples|
  }

  lemma InitialEstimatorWellFormed()
    ensures WellFormed(InitialEstimator())
  {
  }

  /**
   * Records one observed rate: it is appended, the oldest sample is dropped
   * when the window would exceed ten, and the estimate becomes the integer
   * mean of the window.
   */
  function Loaded(e: Estimator, rate: nat): (e': Estimator)
    ensures 0 < |e'.samples| && e'.samples[|e'.samples| - 1] == rate
    ensures |e'.samples| <= |e.samples| + 1
    ensures e'.samples == (e.samples + [rate])[|e.samples| + 1 - |e'.samples|..]
    ensures |e.samples| <= MaxSamples ==>
      |e'.samples| == if |e.samples| < MaxSamples then |e.samples| + 1 else MaxSamples
    ensures e'.estimate * |e'.samples| <= SumInts(e'.samples) < (e'.estimate + 1) * |e'.samples|
    ensures WellFormed(e) ==> WellFormed(e')
  {
    var appended := e.samples + [rate];
    var window := if |appended| > MaxSamples then appended[1..] else appended;
    SumIntsNonNegative(window);
    MeanBounds(SumInts(window), |window|);
    Estimator(window, SumInts(window) / |window|)
  }

  lemma MeanBounds(total: int, n: nat)
    requires 0 <= total && 0 < n
    ensures 0 <= total / n
    ensures (total / n) * n <= total < (total / n + 1) * n
  {
  }

  /**
   * The rate a completed load reports: the fragment's byte length in bits
   * over the load time in seconds, truncated to an integer.
   */
  function ObservedRate(length: nat, seconds: real): (rate: nat)
    requires seconds > 0.0
    ensures rate as real <= (length * 8) as real / seconds < (rate + 1) as real
  {
    var q := (length * 8) as real / seconds;
    assert q >= 0.0;
    q.Floor
  }

  /** Feeds a run of observed rates in order. */
  function Feed(e: Estimator, rates: seq<nat>): Estimator
    decreases |rates|
  {
    if |rates| == 0 then e else Feed(Loaded(e, rates[0]), rates[1..])
  }

  /** The last `MaxSamples` elements of `s`, or all of it when shorter. */
  function LastSamples(s: seq<nat>): (w: seq<nat>)
  {
    if |s| <= MaxSamples then s else s[|s| - MaxSamples..]
  }

  /**
   * After any run of observations the window is exactly the last ten of the
   * samples before it followed by the observed rates.
   */
  lemma {:induction false} FeedKeepsLastSamples(e: Estimator, rates: seq<nat>)
    requires 1 <= |e.samples| <= MaxSamples
    ensures Feed(e, rates).samples == LastSamples(e.samples + rates)
    decreases |rates|
  {
    if |rates| > 0 {
      var e1 := Loaded(e, rates[0]);
      FeedStep(e, rates);
      LoadedWindow(e, rates[0]);
      FeedKeepsLastSamples(e1, rates[1..]);
      LastSamplesOfLastSamples(e.samples + [rates[0]], rates[1..]);
      AppendFront(e.samples, rates);
    }
  }

  lemma FeedStep(e: Estimator, rates: seq<nat>)
    requires |rates| > 0
    ensures Feed(e, rates).samples == Feed(Loaded(e, rates[0]), rates[1..]).samples
  {
  }

  lemma AppendFront(a: seq<nat>, rates: seq<nat>)
    requires |rates| > 0
    ensures (a + [rates[0]]) + rates[1..] == a + rates
  {
    assert rates == [rates[0]] + rates[1..];
  }

  /** One observation leaves the last ten of the old window followed by the rate. */
  lemma LoadedWindow(e: Estimator, rate: nat)
    requires 1 <= |e.samples| <= MaxSamples
    ensures Loaded(e, rate).samples == LastSamples(e.samples + [rate])
    ensures 1 <= |Loaded(e, rate).samples| <= MaxSamples
  {
  }

  /** After at least one observation the estimate is the integer mean of the window. */
  lemma {:induction false} FeedEstimateIsMean(e: Estimator, rates: seq<nat>)
    requires |rates| > 0
    ensures |Feed(e, rates).samples| > 0
    ensures Feed(e, rates).estimate == SumInts(Feed(e, rates).samples) / |Feed(e, rates).samples|
    decreases |rates|
  {
    var e1 := Loaded(e, rates[0]);
    if |rates| == 1 {
      assert Feed(e, rates) == Feed(e1, []) == e1;
      SumIntsNonNegative(e1.samples);
    } else {
      FeedEstimateIsMean(e1, rates[1..]);
    }
  }

  lemma LastSamplesOfLastSamples(a: seq<nat>, b: seq<nat>)
    ensures LastSamples(LastSamples(a) + b) == LastSamples(a + b)
  {
    if |a| > MaxSamples {
      var la := a[|a| - MaxSamples..];
      if |la + b| > MaxSamples {
        assert (la + b)[|la + b| - MaxSamples..] == (a + b)[|a + b| - MaxSamples..];
      }
    }
  }

  /** The window after observing `rates` from the initial state. */
  lemma InitialWindow(rates: seq<nat>)
    ensures Feed(InitialEstimator(), rates).samples == LastSamples([0] + rates)
  {
    FeedKeepsLastSamples(InitialEstimator(), rates);
  }

  /** The safety margin: 2 for urgent requests, 1.3 otherwise. */
  function Margin(urgent: bool): real
  {
    if urgent then UrgentBitrateMargin else NormalBitrateMargin
  }

  /** The estimate exceeds the variant's bandwidth times the margin. */
  predicate Clears(estimate: int, p: Playlist, urgent: bool)
  {
    (estimate as real) > (p.bandwidth as real) * Margin(urgent)
  }

  /**
   * `Clears` is the selector's test `estimate / (bandwidth * margin) > 1`:
   * literally when the bandwidth is positive, and as the IEEE quotient
   * (+infinity for a positive estimate, NaN or -infinity otherwise) when it is zero.
   */
  lemma ClearsIsRatioAboveOne(estimate: int, p: Playlist, urgent: bool)
    ensures p.bandwidth > 0 ==>
      (Clears(estimate, p, urgent) <==> (estimate as real) / ((p.bandwidth as real) * Margin(urgent)) > 1.0)
    ensures p.bandwidth == 0 ==> (Clears(estimate, p, urgent) <==> estimate > 0)
  {
    if p.bandwidth > 0 {
      var d := (p.bandwidth as real) * Margin(urgent);
      assert d > 0.0;
      QuotientAboveOne(estimate as real, d);
    }
  }

  lemma QuotientAboveOne(x: real, d: real)
    requires d > 0.0
    ensures x / d > 1.0 <==> x > d
  {
    assert x == (x / d) * d;
    if x / d > 1.0 {
      assert (x / d) * d > 1.0 * d;
    }
    if x > d {
      assert (x / d) * d > d;
    }
  }

  /** A lower-bandwidth variant clears whenever a higher one does. */
  lemma ClearsMonotone(estimate: int, p: Playlist, q: Playlist, urgent: bool)
    requires Clears(estimate, p, urgent) && q.bandwidth <= p.bandwidth
    ensures Clears(estimate, q, urgent)
  {
  }

  predicate SortedByBandwidth(ps: seq<Playlist>)
  {
    forall i, j :: 0 <= i < j < |ps| ==> ps[i].bandwidth >= ps[j].bandwidth
  }

  /** Inserts `p` before the first element whose bandwidth does not exceed its own. */
  function InsertByBandwidth(p: Playlist, ps: seq<Playlist>): (r: seq<Playlist>)
    requires SortedByBandwidth(ps)
    ensures SortedByBandwidth(r)
    ensures multiset(r) == multiset(ps) + multiset{p}
  {
    if |ps| == 0 then [p]
    else if ps[0].bandwidth <= p.bandwidth then
      SortedCons(p, ps);
      [p] + ps
    else
      var rest := InsertByBandwidth(p, ps[1..]);
      InsertedBelowHead(p, ps, rest);
      SortedCons(ps[0], rest);
      assert ps == [ps[0]] + ps[1..];
      [ps[0]] + rest
  }

  /** Everything inserted behind the head of a sorted run stays at or below the head's bandwidth. */
  lemma InsertedBelowHead(p: Playlist, ps: seq<Playlist>, rest: seq<Playlist>)
    requires SortedByBandwidth(ps) && |ps| > 0 && p.bandwidth < ps[0].bandwidth
    requires multiset(rest) == multiset(ps[1..]) + multiset{p}
    ensures forall j :: 0 <= j < |rest| ==> rest[j].bandwidth <= ps[0].bandwidth
  {
    forall j | 0 <= j < |rest|
      ensures rest[j].bandwidth <= ps[0].bandwidth
    {
      assert rest[j] in multiset(rest);
      if rest[j] != p {
        assert rest[j] in ps[1..];
        var k :| 0 <= k < |ps[1..]| && ps[1..][k] == rest[j];
        assert ps[k + 1] == rest[j];
      }
    }
  }

  lemma SortedCons(x: Playlist, ps: seq<Playlist>)
    requires SortedByBandwidth(ps)
    requires forall j :: 0 <= j < |ps| ==> ps[j].bandwidth <= x.bandwidth
    ensures SortedByBandwidth([x] + ps)
  {
    var r := [x] + ps;
    forall i, j | 0 <= i < j < |r|
      ensures r[i].bandwidth >= r[j].bandwidth
    {
      assert r[j] == ps[j - 1];
      if i > 0 {
        assert r[i] == ps[i - 1];
      }
    }
  }

  /** A stable insertion sort by descending bandwidth. */
  function SortByBandwidth(ps: seq<Playlist>): (r: seq<Playlist>)
    ensures SortedByBandwidth(r)
    ensures multiset(r) == multiset(ps)
  {
    if |ps| == 0 then []
    else
      assert ps == [ps[0]] + ps[1..];
      InsertByBandwidth(ps[0], SortByBandwidth(ps[1..]))
  }

  /** Index of the first variant at or after `i` that clears, or `|sorted|` when none does. */
  function FirstClearing(sorted: seq<Playlist>, estimate: int, urgent: bool, i: nat): (k: nat)
    requires i <= |sorted|
    ensures i <= k <= |sorted|
    ensures forall j :: i <= j < k ==> !Clears(estimate, sorted[j], urgent)
    ensures k < |sorted| ==> Clears(estimate, sorted[k], urgent)
    decreases |sorted| - i
  {
    if i == |sorted| then i
    else if Clears(estimate, sorted[i], urgent) then i
    else FirstClearing(sorted, estimate, urgent, i + 1)
  }

  /**
   * The variant to fetch: the highest-bandwidth variant that clears the
   * margin, or a lowest-bandwidth variant when none does.
   */
  function Choose(estimate: int, playlists: seq<Playlist>, urgent: bool): (r: Playlist)
    requires |playlists| > 0
    ensures r in playlists
    ensures (exists p :: p in playlists && Clears(estimate, p, urgent)) ==>
      && Clears(estimate, r, urgent)
      && forall q :: q in playlists && Clears(estimate, q, urgent) ==> q.bandwidth <= r.bandwidth
    ensures (forall p :: p in playlists ==> !Clears(estimate, p, urgent)) ==>
      forall q :: q in playlists ==> r.bandwidth <= q.bandwidth
  {
    var sorted := SortByBandwidth(playlists);
    assert |sorted| == |playlists| by {
      assert |multiset(sorted)| == |multiset(playlists)|;
    }
    var k := FirstClearing(sorted, estimate, urgent, 0);
    var chosen := if k < |sorted| then sorted[k] else sorted[|sorted| - 1];
    assert chosen in multiset(sorted);
    ChooseIsExtreme(sorted, playlists, estimate, urgent, k);
    chosen
  }

  lemma ChooseIsExtreme(sorted: seq<Playlist>, playlists: seq<Playlist>, estimate: int, urgent: bool, k: nat)
    requires SortedByBandwidth(sorted) && multiset(sorted) == multiset(playlists) && |sorted| > 0
    requires k <= |sorted|
    requires forall j :: 0 <= j < k ==> !Clears(estimate, sorted[j], urgent)
    requires k < |sorted| ==> Clears(estimate, sorted[k], urgent)
    ensures k < |sorted| ==>
      forall q :: q in playlists && Clears(estimate, q, urgent) ==> q.bandwidth <= sorted[k].bandwidth
    ensures k == |sorted| ==>
      && (forall p :: p in playlists ==> !Clears(estimate, p, urgent))
      && (forall q :: q in playlists ==> sorted[|sorted| - 1].bandwidth <= q.bandwidth)
  {
    forall q | q in playlists
      ensures k < |sorted| && Clears(estimate, q, urgent) ==> q.bandwidth <= sorted[k].bandwidth
      ensures k == |sorted| ==> !Clears(estimate, q, urgent) && sorted[|sorted| - 1].bandwidth <= q.bandwidth
    {
      assert q in multiset(sorted);
      var j :| 0 <= j < |sorted| && sorted[j] == q;
      if k < |sorted| && Clears(estimate, q, urgent) {
        assert j >= k;
      }
    }
  }

  /**
   * Whether to fetch now: the buffered time left after subtracting the
   * projected download time of one target duration is below the horizon.
   * The projected time is `bandwidth * targetDuration * 8 / estimate`; with a
   * zero estimate the IEEE quotient is +infinity (fetch) when the numerator is
   * positive and NaN (do not fetch) when it is zero.
   */
  function NeedsToLoad(estimate: nat, p: Playlist, current: real, buffered: real): (r: bool)
    ensures estimate > 0 ==>
      (r <==> (buffered - current - BufferingDuration) * (estimate as real) < ((p.bandwidth * p.targetDuration * 8) as real))
    ensures estimate == 0 ==> (r <==> p.bandwidth > 0 && p.targetDuration > 0)
  {
    var load := p.bandwidth * p.targetDuration * 8;
    if estimate == 0 then load != 0
    else
      var timeLeftBuffered := buffered - current - (load as real) / (estimate as real);
      BelowQuotient(buffered - current - BufferingDuration, load as real, estimate as real);
      timeLeftBuffered < BufferingDuration
  }

  lemma BelowQuotient(x: real, z: real, y: real)
    requires y > 0.0
    ensures x < z / y <==> x * y < z
  {
    assert (z / y) * y == z;
    if x < z / y {
      assert x * y < (z / y) * y;
    }
    if x * y < z {
      assert x * y < (z / y) * y;
    }
  }

  /**
   * Bandwidth 1000, target duration 6 and estimate 2000: the projected
   * download takes 1000 * 6 * 8 / 2000 = 24 seconds, so with 10 s played and
   * 15 s buffered the engine fetches; it stops fetching once 54 s or more
   * are buffered ahead.
   */
  lemma NeedsToLoadExample()
    ensures var p := Playlist(0, 1000, 6, [], ByteRange(0, 0));
      && NeedsToLoad(2000, p, 10.0, 15.0)
      && !NeedsToLoad(2000, p, 10.0, 64.0)
  {
  }
}
