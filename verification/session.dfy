/**
 * The session state machine that walks the fragment index: the timeline of
 * fragment slots, start, seek, the periodic evaluation with its single-flight
 * guard, and the generation-checked completion of a load. Timers, dispatch
 * queues and callbacks are outside the model: each queued block is one
 * transition function, the player clock is a parameter, and a load that the
 * session starts is returned as a `LoadRequest` value that later comes back
 * through `Complete`.
 */
module HlsSession {
  import opened Common
  import opened Playlists
  import opened SampleTime
  import opened Abr
  import opened PlaylistLoader

  /** Number of fetch decisions after a start or seek that use the normal margin. */
  const GraceLoads: nat := 3

  /**
   * A timeline slot: fragment index, the variants, the instant the fragment
   * starts on the session timeline, and its duration in the first variant.
   */
  datatype Slot = Slot(index: nat, playlists: seq<Playlist>, timestamp: real, duration: real)

  /** Session state. `generation` stands for the buffering id minted on every seek. */
  datatype Session = Session(
    slots: seq<Slot>,
    loaders: map<int, Loader>,
    currentFragmentIndex: nat,
    isStarted: bool,
    loadingProgress: real,
    skipScheduled: bool,
    generation: nat,
    loadUnurgent: nat,
    abr: Estimator)

  /** A load in flight: the generation it captured, what it fetches, and the slot anchor passed to the loader. */
  datatype LoadRequest = LoadRequest(
    generation: nat,
    fragmentIndex: nat,
    playlistId: int,
    fragment: Fragment,
    basetime: real)

  function SlotDurations(slots: seq<Slot>): (ds: seq<real>)
    ensures |ds| == |slots|
    ensures forall k :: 0 <= k < |slots| ==> ds[k] == slots[k].duration
  {
    seq(|slots|, k requires 0 <= k < |slots| => slots[k].duration)
  }

  /** Each slot starts at the summed durations of the slots before it. */
  ghost predicate Timeline(slots: seq<Slot>)
  {
    forall k :: 0 <= k < |slots| ==> slots[k].timestamp == SumReals(SlotDurations(slots)[..k])
  }

  ghost predicate NonNegativeDurations(slots: seq<Slot>)
  {
    forall k :: 0 <= k < |slots| ==> slots[k].duration >= 0.0
  }

  /**
   * The first `n` slots, each starting where the previous one ends, as the
   * initializer's map with its running timestamp builds them.
   */
  function BuildSlots(playlists: seq<Playlist>, n: nat): (slots: seq<Slot>)
    requires |playlists| > 0 && n <= |playlists[0].fragments|
    ensures |slots| == n
    ensures forall k :: 0 <= k < n ==>
      && slots[k].index == k
      && slots[k].playlists == playlists
      && slots[k].duration == playlists[0].fragments[k].duration
      && slots[k].timestamp == SumReals(FragmentDurations(playlists[0])[..k])
  {
    if n == 0 then []
    else if n == 1 then [Slot(0, playlists, 0.0, playlists[0].fragments[0].duration)]
    else
      var prev := BuildSlots(playlists, n - 1);
      var last := prev[n - 2];
      SumRealsPrefixStep(FragmentDurations(playlists[0]), n - 2);
      prev + [Slot(n - 1, playlists, last.timestamp + last.duration, playlists[0].fragments[n - 1].duration)]
  }

  /**
   * The timeline: slot `k` starts at the sum of the first variant's fragment
   * durations `0..k-1`, whichever variant is later fetched for it.
   */
  function Slots(playlists: seq<Playlist>): (slots: seq<Slot>)
    requires |playlists| > 0
    ensures |slots| == |playlists[0].fragments|
    ensures SlotDurations(slots) == FragmentDurations(playlists[0])
    ensures Timeline(slots)
    ensures forall k :: 0 <= k < |slots| ==>
      && slots[k].index == k
      && slots[k].playlists == playlists
      && slots[k].duration == playlists[0].fragments[k].duration
      && slots[k].timestamp == SumReals(FragmentDurations(playlists[0])[..k])
  {
    var slots := BuildSlots(playlists, |playlists[0].fragments|);
    assert SlotDurations(slots) == FragmentDurations(playlists[0]);
    slots
  }

  /** The full duration reported on start: the sum of the slot durations. */
  function FullDuration(slots: seq<Slot>): real
  {
    SumReals(SlotDurations(slots))
  }

  /** Where slot `j` ends when the slot durations are summed from zero. */
  function PrefixEnd(slots: seq<Slot>, j: nat): real
    requires j < |slots|
  {
    SumReals(SlotDurations(slots)[..j + 1])
  }

  /** On a timeline, slot `j` ends at its timestamp plus its duration, and the next slot starts there. */
  lemma PrefixEndIsSlotEnd(slots: seq<Slot>, j: nat)
    requires Timeline(slots) && j < |slots|
    ensures PrefixEnd(slots, j) == slots[j].timestamp + slots[j].duration
    ensures j + 1 < |slots| ==> slots[j + 1].timestamp == slots[j].timestamp + slots[j].duration
  {
    SumRealsPrefixStep(SlotDurations(slots), j);
  }

  /** With non-negative durations the slot timestamps never decrease. */
  lemma {:induction false} TimelineNonDecreasing(slots: seq<Slot>, j: nat, k: nat)
    requires Timeline(slots) && NonNegativeDurations(slots) && j <= k < |slots|
    ensures slots[j].timestamp <= slots[k].timestamp
    decreases k - j
  {
    if j < k {
      TimelineNonDecreasing(slots, j, k - 1);
      PrefixEndIsSlotEnd(slots, k - 1);
    }
  }

  /** The reported full duration is where the last slot ends. */
  lemma FullDurationIsTimelineEnd(slots: seq<Slot>)
    requires Timeline(slots) && 0 < |slots|
    ensures FullDuration(slots) == slots[|slots| - 1].timestamp + slots[|slots| - 1].duration
  {
    PrefixEndIsSlotEnd(slots, |slots| - 1);
    assert SlotDurations(slots)[..|slots|] == SlotDurations(slots);
  }

  /** For a new session the full duration is the first variant's total. */
  lemma FullDurationIsFirstVariantTotal(playlists: seq<Playlist>)
    requires |playlists| > 0
    ensures FullDuration(Slots(playlists)) == SumReals(FragmentDurations(playlists[0]))
  {
  }

  /** Loaders keyed by playlist id; a later playlist with the same id replaces an earlier one. */
  function BuildLoaders(playlists: seq<Playlist>): (loaders: map<int, Loader>)
    ensures forall p :: p in playlists ==> p.id in loaders
    ensures forall id :: id in loaders ==>
      && loaders[id] == NewLoader(loaders[id].playlist)
      && loaders[id].playlist in playlists
      && loaders[id].playlist.id == id
  {
    if |playlists| == 0 then map[]
    else
      var last := playlists[|playlists| - 1];
      assert playlists == playlists[..|playlists| - 1] + [last];
      BuildLoaders(playlists[..|playlists| - 1])[last.id := NewLoader(last)]
  }

  /** A new session: index 0, not started, nothing buffered, generation 0, the initial estimator. */
  function Init(playlists: seq<Playlist>): Session
    requires |playlists| > 0
  {
    Session(Slots(playlists), BuildLoaders(playlists), 0, false, 0.0, false, 0, 0, InitialEstimator())
  }

  /** Every variant has at least as many fragments as the first one. */
  predicate Aligned(playlists: seq<Playlist>)
  {
    && |playlists| > 0
    && forall p :: p in playlists ==> |p.fragments| >= |playlists[0].fragments|
  }

  /**
   * What a load at slot `k` needs: some variant to choose from, and for each
   * variant with a loader, a fragment at index `k` in that loader's playlist.
   */
  ghost predicate Static(s: Session)
  {
    forall k :: 0 <= k < |s.slots| ==>
      && |s.slots[k].playlists| > 0
      && forall p :: p in s.slots[k].playlists && p.id in s.loaders ==> k < |s.loaders[p.id].playlist.fragments|
  }

  /** `Static` depends only on the slots, the loader ids and the loaders' playlists. */
  lemma StaticKeptBy(s: Session, s': Session)
    requires Static(s)
    requires s'.slots == s.slots && s'.loaders.Keys == s.loaders.Keys
    requires forall id :: id in s.loaders ==> s'.loaders[id].playlist == s.loaders[id].playlist
    ensures Static(s')
  {
  }

  lemma InitIsStatic(playlists: seq<Playlist>)
    requires Aligned(playlists)
    ensures Static(Init(playlists))
  {
    var s := Init(playlists);
    forall k, p | 0 <= k < |s.slots| && p in s.slots[k].playlists && p.id in s.loaders
      ensures k < |s.loaders[p.id].playlist.fragments|
    {
      assert s.loaders[p.id].playlist in playlists;
    }
  }

  /**
   * Starts the session once: marks it started, opens the grace window and
   * reports the full duration. A second start changes nothing.
   */
  function Start(s: Session): (res: (Session, Option<real>))
    ensures s.isStarted ==> res.0 == s && res.1.None?
    ensures !s.isStarted ==>
      && res.0 == s.(isStarted := true, loadUnurgent := GraceLoads)
      && res.1 == Some(FullDuration(s.slots))
  {
    if s.isStarted then (s, None)
    else (s.(isStarted := true, loadUnurgent := GraceLoads), Some(FullDuration(s.slots)))
  }

  /** Starting twice is starting once. */
  lemma StartTakesEffectOnce(s: Session)
    ensures Start(s).0.isStarted
    ensures Start(Start(s).0) == (Start(s).0, None)
  {
  }

  /** The seek loop from slot `i`, with `acc` the summed durations of the slots before it. */
  function SeekScan(slots: seq<Slot>, t: real, i: nat, acc: real): (k: nat)
    requires 0 < |slots| && i <= |slots|
    requires acc == SumReals(SlotDurations(slots)[..i])
    requires forall j :: 0 <= j < i ==> PrefixEnd(slots, j) <= t
    ensures k < |slots|
    ensures forall j :: 0 <= j < k ==> PrefixEnd(slots, j) <= t
    ensures t < PrefixEnd(slots, k) || k == |slots| - 1
    decreases |slots| - i
  {
    if i == |slots| then |slots| - 1
    else
      SumRealsPrefixStep(SlotDurations(slots), i);
      if acc + slots[i].duration > t then i
      else SeekScan(slots, t, i + 1, acc + slots[i].duration)
  }

  /**
   * The slot a seek to `t` lands on: the first slot whose cumulative end is
   * past `t`, or the last slot when there is none.
   */
  function SeekIndex(slots: seq<Slot>, t: real): (k: nat)
    requires 0 < |slots|
    ensures k < |slots|
    ensures forall j :: 0 <= j < k ==> PrefixEnd(slots, j) <= t
    ensures t < PrefixEnd(slots, k) || k == |slots| - 1
  {
    SeekScan(slots, t, 0, 0.0)
  }

  /**
   * On a timeline of non-negative durations, a seek to any `t` inside slot
   * `k` (from its start inclusive to its end exclusive) lands on slot `k`; in
   * particular a seek exactly to the start of a slot of positive duration
   * lands on that slot, not the one before.
   */
  lemma SeekLandsInContainingSlot(slots: seq<Slot>, t: real, k: nat)
    requires Timeline(slots) && NonNegativeDurations(slots) && k < |slots|
    requires slots[k].timestamp <= t < slots[k].timestamp + slots[k].duration
    ensures SeekIndex(slots, t) == k
  {
    var r := SeekIndex(slots, t);
    PrefixEndIsSlotEnd(slots, k);
    if r < k {
      PrefixEndIsSlotEnd(slots, r);
      TimelineNonDecreasing(slots, r + 1, k);
      assert false;
    }
  }

  /** A seek at or past the full duration lands on the last slot. */
  lemma SeekPastEndLandsOnLastSlot(slots: seq<Slot>, t: real)
    requires Timeline(slots) && NonNegativeDurations(slots) && 0 < |slots|
    requires t >= FullDuration(slots)
    ensures SeekIndex(slots, t) == |slots| - 1
  {
    var n := |slots|;
    var r := SeekIndex(slots, t);
    if r < n - 1 {
      PrefixEndIsSlotEnd(slots, r);
      TimelineNonDecreasing(slots, r + 1, n - 1);
      FullDurationIsTimelineEnd(slots);
      assert false;
    }
  }

  /** The variant the evaluation picks for the current slot; urgent once the grace window is used up. */
  function ChosenPlaylist(s: Session): (p: Playlist)
    requires Static(s) && s.currentFragmentIndex < |s.slots|
    ensures p in s.slots[s.currentFragmentIndex].playlists
  {
    Choose(s.abr.estimate, s.slots[s.currentFragmentIndex].playlists, s.loadUnurgent == 0)
  }

  /** Whether an evaluation with player clock `playerTime` decides to fetch. */
  predicate Decides(s: Session, playerTime: Option<real>)
    requires Static(s) && s.currentFragmentIndex < |s.slots|
  {
    && playerTime.Some?
    && NeedsToLoad(s.abr.estimate, ChosenPlaylist(s), playerTime.value, s.loadingProgress)
  }

  /**
   * One fetch decision for the current slot. Without a player clock or when
   * the look-ahead says no, nothing changes. Otherwise the guard is set, the
   * grace counter drops by one (not below zero), and a load of the chosen
   * variant's fragment is issued carrying the current generation; it is not
   * issued when no loader exists for that variant, although the guard is set.
   */
  function Run(s: Session, playerTime: Option<real>): (res: (Session, Option<LoadRequest>))
    requires Static(s) && s.currentFragmentIndex < |s.slots|
    ensures !Decides(s, playerTime) ==> res.0 == s && res.1.None?
    ensures Decides(s, playerTime) ==>
      && res.0 == s.(skipScheduled := true, loadUnurgent := if s.loadUnurgent > 0 then s.loadUnurgent - 1 else 0)
      && (res.1.Some? <==> ChosenPlaylist(s).id in s.loaders)
    ensures res.1.Some? ==>
      && res.1.value.generation == s.generation
      && res.1.value.fragmentIndex == s.currentFragmentIndex
      && res.1.value.playlistId == ChosenPlaylist(s).id
      && res.1.value.playlistId in s.loaders
      && res.1.value.basetime == s.slots[s.currentFragmentIndex].timestamp
      && res.1.value.fragment == s.loaders[res.1.value.playlistId].playlist.fragments[s.currentFragmentIndex]
  {
    match playerTime
    case None => (s, None)
    case Some(now) =>
      var i := s.currentFragmentIndex;
      var p := Choose(s.abr.estimate, s.slots[i].playlists, s.loadUnurgent == 0);
      if !NeedsToLoad(s.abr.estimate, p, now, s.loadingProgress) then (s, None)
      else
        var s' := s.(loadUnurgent := if s.loadUnurgent > 0 then s.loadUnurgent - 1 else 0, skipScheduled := true);
        if p.id in s.loaders then
          (s', Some(LoadRequest(s.generation, i, p.id, s.loaders[p.id].playlist.fragments[i], s.slots[i].timestamp)))
        else (s', None)
  }

  /**
   * The timer-driven evaluation: nothing unless the session is started, the
   * index is inside the timeline and no decision is in flight.
   */
  function ScheduledRun(s: Session, playerTime: Option<real>): (res: (Session, Option<LoadRequest>))
    requires Static(s)
    ensures !s.isStarted || s.currentFragmentIndex >= |s.slots| || s.skipScheduled ==> res == (s, None)
    ensures s.isStarted && s.currentFragmentIndex < |s.slots| && !s.skipScheduled ==> res == Run(s, playerTime)
  {
    if !s.isStarted || s.currentFragmentIndex >= |s.slots| || s.skipScheduled then (s, None)
    else Run(s, playerTime)
  }

  /** Every loader flushed. */
  function FlushAll(loaders: map<int, Loader>): (r: map<int, Loader>)
    ensures r.Keys == loaders.Keys
    ensures forall id :: id in r ==> r[id] == Flush(loaders[id])
  {
    map id | id in loaders :: Flush(loaders[id])
  }

  /**
   * The session after a seek's bookkeeping and before its decision: a fresh
   * generation, the slot containing `t`, buffering progress `t`, a new grace
   * window and every loader flushed. Nothing else changes, the guard and the
   * started flag included.
   */
  function Repositioned(s: Session, t: real): (s1: Session)
    requires Static(s) && 0 < |s.slots|
    ensures Static(s1) && s1.currentFragmentIndex < |s1.slots|
    ensures s1.generation == s.generation + 1
    ensures s1.currentFragmentIndex == SeekIndex(s.slots, t)
    ensures s1.loadingProgress == t && s1.loadUnurgent == GraceLoads
    ensures s1.loaders == FlushAll(s.loaders)
    ensures s1 == s.(generation := s1.generation, currentFragmentIndex := s1.currentFragmentIndex,
                     loadingProgress := t, loadUnurgent := GraceLoads, loaders := s1.loaders)
  {
    var s1 := s.(generation := s.generation + 1,
                 currentFragmentIndex := SeekIndex(s.slots, t),
                 loadingProgress := t,
                 loadUnurgent := GraceLoads,
                 loaders := FlushAll(s.loaders));
    StaticKeptBy(s, s1);
    s1
  }

  /**
   * Seek to `t`: the bookkeeping of `Repositioned`, then one fetch decision
   * made directly, bypassing the timer's started and in-flight guards.
   */
  function Seek(s: Session, t: real, playerTime: Option<real>): (res: (Session, Option<LoadRequest>))
    requires Static(s) && 0 < |s.slots|
    ensures res == Run(Repositioned(s, t), playerTime)
    ensures res.0.generation == s.generation + 1
    ensures res.0.currentFragmentIndex == SeekIndex(s.slots, t)
    ensures res.0.loadingProgress == t
    ensures res.0.slots == s.slots && res.0.loaders == FlushAll(s.loaders)
    ensures res.0.isStarted == s.isStarted && res.0.abr == s.abr
    ensures res.0.loadUnurgent == GraceLoads || res.0.loadUnurgent == GraceLoads - 1
    ensures res.1.Some? ==> res.1.value.generation == res.0.generation && res.0.skipScheduled
    ensures res.1.Some? ==>
      res.1.value.fragmentIndex == res.0.currentFragmentIndex && res.1.value.playlistId in res.0.loaders
    ensures res.1.None? ==> res.0.skipScheduled == s.skipScheduled || res.0.skipScheduled
  {
    Run(Repositioned(s, t), playerTime)
  }

  /**
   * A seek fetches whenever its own decision says so, even in a session that
   * is not started or whose guard is set; in a guarded session the timer's
   * evaluation from the same point fetches nothing.
   */
  lemma SeekBypassesGuards(s: Session, t: real, playerTime: Option<real>)
    requires Static(s) && 0 < |s.slots|
    requires Decides(Repositioned(s, t), playerTime)
    requires ChosenPlaylist(Repositioned(s, t)).id in s.loaders
    ensures Seek(s, t, playerTime).1.Some?
    ensures Seek(s, t, playerTime).1.value.generation == s.generation + 1
    ensures Seek(s, t, playerTime).0.skipScheduled
    ensures !s.isStarted || s.skipScheduled ==> ScheduledRun(Repositioned(s, t), playerTime).1.None?
  {
  }

  /**
   * A load's completion with the fragment its loader read. One whose captured
   * generation is not the current one is dropped without any change, the
   * guard included, and its fragment is not forwarded. A current one advances
   * the buffered progress by the fragment's declared duration and the index
   * by one, forwards the fragment to the output, releases the guard and feeds
   * the estimator the rate observed over `elapsed` seconds of loading.
   */
  function Complete(s: Session, req: LoadRequest, f: LoadedFragment, elapsed: real)
    : (res: (Session, Option<LoadedFragment>))
    requires elapsed > 0.0
    ensures req.generation != s.generation ==> res == (s, None)
    ensures res.1.Some? <==> req.generation == s.generation
    ensures req.generation == s.generation ==>
      && res.1 == Some(f)
      && res.0.loadingProgress == s.loadingProgress + f.fragment.duration
      && res.0.currentFragmentIndex == s.currentFragmentIndex + 1
      && !res.0.skipScheduled
      && res.0.abr == Loaded(s.abr, ObservedRate(f.fragment.byteRange.length, elapsed))
      && res.0 == s.(loadingProgress := res.0.loadingProgress, currentFragmentIndex := res.0.currentFragmentIndex,
                     skipScheduled := false, abr := res.0.abr)
  {
    if req.generation != s.generation then (s, None)
    else
      var s' := s.(loadingProgress := s.loadingProgress + f.fragment.duration,
                   currentFragmentIndex := s.currentFragmentIndex + 1,
                   skipScheduled := false,
                   abr := Loaded(s.abr, ObservedRate(f.fragment.byteRange.length, elapsed)));
      (s', Some(f))
  }

  /**
   * The loader's read of a requested fragment. It runs whatever the
   * generation: a load that has gone stale still advances its loader's cursors.
   */
  function Decode(
    s: Session, req: LoadRequest, rawAudio: seq<Sample>, rawVideo: seq<Sample>,
    asset: nat, assetDuration: real): (res: (Session, LoadedFragment))
    requires req.playlistId in s.loaders
    requires Readable(rawAudio) && Readable(rawVideo)
    ensures res.0 == s.(loaders := res.0.loaders)
    ensures res.0.loaders.Keys == s.loaders.Keys
    ensures forall id :: id in s.loaders && id != req.playlistId ==> res.0.loaders[id] == s.loaders[id]
    ensures res.0.loaders[req.playlistId].playlist == s.loaders[req.playlistId].playlist
    ensures res.0.loaders[req.playlistId].nextAudioStart == s.loaders[req.playlistId].nextAudioStart + res.1.audioDuration
    ensures res.0.loaders[req.playlistId].nextVideoStart == s.loaders[req.playlistId].nextVideoStart + res.1.videoDuration
    ensures res.1.fragment == req.fragment
    ensures var r := Read(s.loaders[req.playlistId], req.fragment, rawAudio, rawVideo, asset, assetDuration);
      res.0.loaders[req.playlistId] == r.0 && res.1 == r.1
  {
    var (l', f) := Read(s.loaders[req.playlistId], req.fragment, rawAudio, rawVideo, asset, assetDuration);
    (s.(loaders := s.loaders[req.playlistId := l']), f)
  }

  /** After a seek, completing any load issued before it is a no-op and forwards nothing. */
  lemma SeekMakesEarlierLoadsStale(
    s: Session, t: real, playerTime: Option<real>, req: LoadRequest, f: LoadedFragment, elapsed: real)
    requires Static(s) && 0 < |s.slots|
    requires req.generation <= s.generation && elapsed > 0.0
    ensures Complete(Seek(s, t, playerTime).0, req, f, elapsed) == (Seek(s, t, playerTime).0, None)
  {
  }

  /**
   * A stale completion leaves the guard set, so when the seek's own decision
   * did not fetch, the timer's evaluations stay no-ops until the next seek.
   */
  lemma StaleCompletionKeepsGuard(
    s: Session, req: LoadRequest, f: LoadedFragment, elapsed: real, playerTime: Option<real>)
    requires Static(s) && s.skipScheduled && req.generation != s.generation && elapsed > 0.0
    ensures Complete(s, req, f, elapsed).0.skipScheduled
    ensures Complete(s, req, f, elapsed).1.None?
    ensures ScheduledRun(Complete(s, req, f, elapsed).0, playerTime) == (s, None)
  {
  }
}
