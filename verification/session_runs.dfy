/**
 * The session together with the loads it has started and not yet completed.
 * Each transition is one block on the session's queue: a timer tick, a start,
 * a seek, or the completion of one in-flight load (read by its loader, then
 * accepted or dropped by generation). The invariant says that the current
 * generation has at most one load in flight, that such a load is for the
 * current slot, and that the guard is set while it is outstanding.
 */
module SessionRuns {
  import opened Common
  import opened Playlists
  import opened SampleTime
  import opened Abr
  import opened PlaylistLoader
  import opened HlsSession

  /**
   * The session, the loads it has started and not yet completed, and the
   * fragments it has forwarded to its output, oldest first.
   */
  datatype World = World(session: Session, inFlight: seq<LoadRequest>, forwarded: seq<LoadedFragment>)

  function InitWorld(playlists: seq<Playlist>): World
    requires |playlists| > 0
  {
    World(Init(playlists), [], [])
  }

  /**
   * An in-flight request the session can resolve: of an earlier or the
   * current generation, for a known loader whose playlist has the requested
   * fragment at the requested index, and, when current, for the current slot
   * with the guard set.
   */
  predicate Tracked(r: LoadRequest, s: Session)
  {
    && r.generation <= s.generation && Loadable(r, s.loaders)
    && (r.generation == s.generation ==> s.skipScheduled && r.fragmentIndex == s.currentFragmentIndex)
  }

  /** The request names a loader whose playlist has the requested fragment at the requested index. */
  predicate Loadable(r: LoadRequest, loaders: map<int, Loader>)
  {
    && r.playlistId in loaders
    && r.fragmentIndex < |loaders[r.playlistId].playlist.fragments|
    && r.fragment == loaders[r.playlistId].playlist.fragments[r.fragmentIndex]
  }

  /** The same loader ids, each with the same playlist. */
  predicate SamePlaylists(a: map<int, Loader>, b: map<int, Loader>)
  {
    a.Keys == b.Keys && forall id :: id in a ==> b[id].playlist == a[id].playlist
  }

  lemma LoadableKept(inFlight: seq<LoadRequest>, a: map<int, Loader>, b: map<int, Loader>)
    requires SamePlaylists(a, b)
    requires forall i :: 0 <= i < |inFlight| ==> Loadable(inFlight[i], a)
    ensures forall i :: 0 <= i < |inFlight| ==> Loadable(inFlight[i], b)
  {
  }

  /** How many of the in-flight requests carry generation `g`. */
  function CountOf(inFlight: seq<LoadRequest>, g: nat): nat
  {
    if |inFlight| == 0 then 0
    else (if inFlight[0].generation == g then 1 else 0) + CountOf(inFlight[1..], g)
  }

  ghost predicate Inv(w: World)
  {
    && Static(w.session)
    && (forall i :: 0 <= i < |w.inFlight| ==> Tracked(w.inFlight[i], w.session))
    && CountOf(w.inFlight, w.session.generation) <= 1
  }

  lemma {:induction false} CountOfAppend(a: seq<LoadRequest>, b: seq<LoadRequest>, g: nat)
    ensures CountOf(a + b, g) == CountOf(a, g) + CountOf(b, g)
    decreases |a|
  {
    if |a| > 0 {
      assert (a + b)[0] == a[0] && (a + b)[1..] == a[1..] + b;
      CountOfAppend(a[1..], b, g);
    } else {
      assert a + b == b;
    }
  }

  /** No request of generation `g` is in flight exactly when the count is zero. */
  lemma {:induction false} CountOfZero(inFlight: seq<LoadRequest>, g: nat)
    ensures CountOf(inFlight, g) == 0 <==> forall j :: 0 <= j < |inFlight| ==> inFlight[j].generation != g
    decreases |inFlight|
  {
    if |inFlight| > 0 {
      CountOfZero(inFlight[1..], g);
      assert forall j :: 1 <= j < |inFlight| ==> inFlight[1..][j - 1] == inFlight[j];
    }
  }

  /** The in-flight list with the issued load, if any, appended. */
  function Issue(inFlight: seq<LoadRequest>, issued: Option<LoadRequest>): (r: seq<LoadRequest>)
    ensures issued.None? ==> r == inFlight
    ensures issued.Some? ==> |r| == |inFlight| + 1 && r[..|inFlight|] == inFlight && r[|inFlight|] == issued.value
    ensures issued.Some? ==> CountOf(r, issued.value.generation) == CountOf(inFlight, issued.value.generation) + 1
  {
    match issued
    case None => inFlight
    case Some(req) =>
      CountOfAppend(inFlight, [req], req.generation);
      inFlight + [req]
  }

  /** The in-flight list without entry `i`. */
  function Remove(inFlight: seq<LoadRequest>, i: nat): (r: seq<LoadRequest>)
    requires i < |inFlight|
    ensures |r| == |inFlight| - 1
    ensures forall j :: 0 <= j < i ==> r[j] == inFlight[j]
    ensures forall j :: i <= j < |r| ==> r[j] == inFlight[j + 1]
    ensures forall g: nat :: CountOf(r, g) + (if inFlight[i].generation == g then 1 else 0) == CountOf(inFlight, g)
  {
    var r := inFlight[..i] + inFlight[i + 1..];
    assert inFlight == inFlight[..i] + ([inFlight[i]] + inFlight[i + 1..]);
    forall g: nat
      ensures CountOf(r, g) + (if inFlight[i].generation == g then 1 else 0) == CountOf(inFlight, g)
    {
      CountOfAppend(inFlight[..i], [inFlight[i]] + inFlight[i + 1..], g);
      CountOfAppend(inFlight[..i], inFlight[i + 1..], g);
      assert ([inFlight[i]] + inFlight[i + 1..])[1..] == inFlight[i + 1..];
    }
    r
  }

  /** A timer tick: the guarded evaluation, recording any load it starts. */
  function Tick(w: World, playerTime: Option<real>): World
    requires Static(w.session)
  {
    var (s', issued) := ScheduledRun(w.session, playerTime);
    World(s', Issue(w.inFlight, issued), w.forwarded)
  }

  function StartWorld(w: World): World
  {
    w.(session := Start(w.session).0)
  }

  /** A seek, recording the load its immediate evaluation starts, if any; earlier loads stay in flight. */
  function SeekWorld(w: World, t: real, playerTime: Option<real>): World
    requires Static(w.session) && 0 < |w.session.slots|
  {
    var (s', issued) := Seek(w.session, t, playerTime);
    World(s', Issue(w.inFlight, issued), w.forwarded)
  }

  /**
   * In-flight load `i` finishes: its loader reads it, then the session
   * accepts it, forwarding the fragment, or drops it.
   */
  function Deliver(
    w: World, i: nat, elapsed: real, rawAudio: seq<Sample>, rawVideo: seq<Sample>,
    asset: nat, assetDuration: real): World
    requires i < |w.inFlight| && w.inFlight[i].playlistId in w.session.loaders && elapsed > 0.0
    requires Readable(rawAudio) && Readable(rawVideo)
  {
    var req := w.inFlight[i];
    var (decoded, f) := Decode(w.session, req, rawAudio, rawVideo, asset, assetDuration);
    var (s', out) := Complete(decoded, req, f, elapsed);
    World(s', Remove(w.inFlight, i), w.forwarded + (match out case Some(g) => [g] case None => []))
  }

  lemma InitWorldInv(playlists: seq<Playlist>)
    requires Aligned(playlists)
    ensures Inv(InitWorld(playlists))
  {
    InitIsStatic(playlists);
  }

  lemma TickPreservesInv(w: World, playerTime: Option<real>)
    requires Inv(w)
    ensures Inv(Tick(w, playerTime))
  {
    var s := w.session;
    var (s', issued) := ScheduledRun(s, playerTime);
    StaticKeptBy(s, s');
    if issued.Some? {
      assert forall j :: 0 <= j < |w.inFlight| ==> w.inFlight[j].generation != s.generation;
      CountOfZero(w.inFlight, s.generation);
    }
  }

  lemma StartPreservesInv(w: World)
    requires Inv(w)
    ensures Inv(StartWorld(w))
  {
    StaticKeptBy(w.session, StartWorld(w).session);
  }

  /**
   * Requests tracked by one session stay tracked by a later one with the same
   * playlists, when the later generation either has none of them in flight
   * or keeps the earlier slot and guard.
   */
  lemma TrackedAfter(inFlight: seq<LoadRequest>, s: Session, s': Session)
    requires forall i :: 0 <= i < |inFlight| ==> Tracked(inFlight[i], s)
    requires s.generation <= s'.generation && SamePlaylists(s.loaders, s'.loaders)
    requires || CountOf(inFlight, s'.generation) == 0
             || (&& s'.generation == s.generation && s'.skipScheduled == s.skipScheduled
                 && s'.currentFragmentIndex == s.currentFragmentIndex)
    ensures forall i :: 0 <= i < |inFlight| ==> Tracked(inFlight[i], s')
  {
    LoadableKept(inFlight, s.loaders, s'.loaders);
    CountOfZero(inFlight, s'.generation);
  }

  lemma SeekPreservesInv(w: World, t: real, playerTime: Option<real>)
    requires Inv(w) && 0 < |w.session.slots|
    ensures Inv(SeekWorld(w, t, playerTime))
  {
    var (s', issued) := Seek(w.session, t, playerTime);
    StaticKeptBy(w.session, s');
    CountOfZero(w.inFlight, s'.generation);
    TrackedAfter(w.inFlight, w.session, s');
  }

  lemma DeliverPreservesInv(
    w: World, i: nat, elapsed: real, rawAudio: seq<Sample>, rawVideo: seq<Sample>,
    asset: nat, assetDuration: real)
    requires Inv(w) && i < |w.inFlight| && elapsed > 0.0
    requires Readable(rawAudio) && Readable(rawVideo)
    ensures Inv(Deliver(w, i, elapsed, rawAudio, rawVideo, asset, assetDuration))
  {
    var req := w.inFlight[i];
    var g := w.session.generation;
    var (decoded, f) := Decode(w.session, req, rawAudio, rawVideo, asset, assetDuration);
    var s' := Complete(decoded, req, f, elapsed).0;
    StaticKeptBy(w.session, decoded);
    StaticKeptBy(decoded, s');
    var rest := Remove(w.inFlight, i);
    assert CountOf(rest, g) + (if req.generation == g then 1 else 0) == CountOf(w.inFlight, g);
    TrackedAfter(rest, w.session, s');
  }

  /** Once a tick starts a load, further ticks start nothing until that load completes or a seek intervenes. */
  lemma NoSecondLoadUntilCompletion(w: World, playerTime: Option<real>, laterTime: Option<real>)
    requires Inv(w)
    requires |Tick(w, playerTime).inFlight| > |w.inFlight|
    ensures Tick(Tick(w, playerTime), laterTime) == Tick(w, playerTime)
  {
    TickPreservesInv(w, playerTime);
  }

  /**
   * An accepted completion is for the current slot, of the fragment its
   * loader's playlist has there; it moves the session one slot on, adds that
   * fragment's duration to the progress, and forwards exactly one fragment:
   * the one its loader's read produced.
   */
  lemma AcceptedDeliveryIsCurrentSlot(
    w: World, i: nat, elapsed: real, rawAudio: seq<Sample>, rawVideo: seq<Sample>,
    asset: nat, assetDuration: real)
    requires Inv(w) && i < |w.inFlight| && w.inFlight[i].generation == w.session.generation && elapsed > 0.0
    requires Readable(rawAudio) && Readable(rawVideo)
    ensures w.inFlight[i].fragmentIndex == w.session.currentFragmentIndex
    ensures w.inFlight[i].fragment
      == w.session.loaders[w.inFlight[i].playlistId].playlist.fragments[w.session.currentFragmentIndex]
    ensures Deliver(w, i, elapsed, rawAudio, rawVideo, asset, assetDuration).session.currentFragmentIndex
      == w.inFlight[i].fragmentIndex + 1
    ensures Deliver(w, i, elapsed, rawAudio, rawVideo, asset, assetDuration).session.loadingProgress
      == w.session.loadingProgress + w.inFlight[i].fragment.duration
    ensures !Deliver(w, i, elapsed, rawAudio, rawVideo, asset, assetDuration).session.skipScheduled
    ensures var out := Deliver(w, i, elapsed, rawAudio, rawVideo, asset, assetDuration).forwarded;
      && |out| == |w.forwarded| + 1 && out[..|w.forwarded|] == w.forwarded
      && out[|w.forwarded|].fragment == w.inFlight[i].fragment
    ensures var req := w.inFlight[i];
      Deliver(w, i, elapsed, rawAudio, rawVideo, asset, assetDuration).forwarded[|w.forwarded|]
      == Read(w.session.loaders[req.playlistId], req.fragment, rawAudio, rawVideo, asset, assetDuration).1
  {
    var out := Deliver(w, i, elapsed, rawAudio, rawVideo, asset, assetDuration).forwarded;
    assert out[..|w.forwarded|] == w.forwarded;
  }

  /**
   * A dropped completion forwards nothing and changes nothing in the session
   * except its loader's read state.
   */
  lemma StaleDeliveryOnlyMovesLoader(
    w: World, i: nat, elapsed: real, rawAudio: seq<Sample>, rawVideo: seq<Sample>,
    asset: nat, assetDuration: real)
    requires Inv(w) && i < |w.inFlight| && w.inFlight[i].generation != w.session.generation && elapsed > 0.0
    requires Readable(rawAudio) && Readable(rawVideo)
    ensures Deliver(w, i, elapsed, rawAudio, rawVideo, asset, assetDuration).forwarded == w.forwarded
    ensures var s' := Deliver(w, i, elapsed, rawAudio, rawVideo, asset, assetDuration).session;
      && s' == w.session.(loaders := s'.loaders)
      && s'.loaders.Keys == w.session.loaders.Keys
  {
    assert w.forwarded + [] == w.forwarded;
  }
}
