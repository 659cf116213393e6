/**
 * The player's play-state machine on top of the renderer. Each transition is
 * one block on the player queue. Whether a session and its input exist is a
 * flag; a seek's forwarding to the session input is returned as a value.
 */
module PlayerStates {
  import opened Common
  import opened SampleTime
  import opened PlaylistLoader
  import BR = BuffersRendering

  datatype PlayState = Paused | Playing | Buffering

  datatype Player = Player(playState: PlayState, hasSession: bool, hasInput: bool, renderer: BR.Renderer)

  function NewPlayer(): Player
  {
    Player(Paused, false, false, BR.NewRenderer())
  }

  /** The renderer runs exactly while playing, at rate 1, and no drain is left half-done. */
  predicate Inv(p: Player)
  {
    && BR.Valid(p.renderer)
    && (p.renderer.isRunning <==> p.playState == Playing)
    && BR.RateFollowsRunning(p.renderer)
    && !p.renderer.enqueueInProgress
  }

  /** The loaded session is attached, and later its input. */
  function AttachSession(p: Player): (p': Player)
    ensures p'.hasSession && p' == p.(hasSession := true)
  {
    p.(hasSession := true)
  }

  function AttachInput(p: Player): (p': Player)
    ensures p'.hasInput && p' == p.(hasInput := true)
  {
    p.(hasInput := true)
  }

  function ResumePlayback(p: Player): (p': Player)
    ensures p'.playState == Playing && p'.renderer == BR.Play(p.renderer)
  {
    p.(playState := Playing, renderer := BR.Play(p.renderer))
  }

  /** Play resumes only from pause and only once a session exists; otherwise nothing changes. */
  function Play(p: Player): (p': Player)
    ensures p.playState == Paused && p.hasSession ==> p' == ResumePlayback(p)
    ensures !(p.playState == Paused && p.hasSession) ==> p' == p
  {
    match p.playState
    case Paused => if p.hasSession then ResumePlayback(p) else p
    case Playing => p
    case Buffering => p
  }

  /** Seek forwards the time to the session input if there is one, seeks the renderer, and always buffers. */
  function Seek(p: Player, t: real): (res: (Player, Option<real>))
    requires BR.Valid(p.renderer)
    ensures res.0.playState == Buffering
    ensures res.0.renderer == BR.Seek(p.renderer, t)
    ensures res.1 == if p.hasInput then Some(t) else None
    ensures res.0.hasSession == p.hasSession && res.0.hasInput == p.hasInput
  {
    (p.(renderer := BR.Seek(p.renderer, t), playState := Buffering), if p.hasInput then Some(t) else None)
  }

  /** Pause always pauses, from any state. */
  function Pause(p: Player): (p': Player)
    ensures p'.playState == Paused && p'.renderer == BR.Pause(p.renderer)
    ensures p'.hasSession == p.hasSession && p'.hasInput == p.hasInput
  {
    p.(playState := Paused, renderer := BR.Pause(p.renderer))
  }

  /** The display-link tick drains the renderer only while playing. */
  function DisplayLinkTick(p: Player, videoReady: seq<Sample> -> bool, audioReady: seq<Sample> -> bool)
    : (p': Player)
    requires BR.Valid(p.renderer)
    ensures p.playState != Playing ==> p' == p
    ensures p.playState == Playing ==>
      p' == p.(renderer := BR.DisplayLinkTrigger(p.renderer, videoReady, audioReady))
  {
    if p.playState != Playing then p
    else p.(renderer := BR.DisplayLinkTrigger(p.renderer, videoReady, audioReady))
  }

  /** A new fragment from the session is scheduled on the renderer; the play state waits for its completion. */
  function NewFragment(p: Player, f: LoadedFragment): (p': Player)
    requires BR.Valid(p.renderer) && 0 < |f.videoBuffers| && 0 < |f.audioBuffers|
    ensures p' == p.(renderer := BR.Schedule(p.renderer, f))
  {
    p.(renderer := BR.Schedule(p.renderer, f))
  }

  /** The schedule's completion resumes playback only when buffering. */
  function ScheduleCompleted(p: Player): (p': Player)
    ensures p.playState == Buffering ==> p' == ResumePlayback(p)
    ensures p.playState != Buffering ==> p' == p
  {
    if p.playState == Buffering then ResumePlayback(p) else p
  }

  lemma NewPlayerInv()
    ensures Inv(NewPlayer())
  {
  }

  /** Every transition keeps the renderer running exactly while playing. */
  lemma TransitionsPreserveInv(
    p: Player, t: real, f: LoadedFragment, videoReady: seq<Sample> -> bool, audioReady: seq<Sample> -> bool)
    requires Inv(p)
    ensures Inv(AttachSession(p)) && Inv(AttachInput(p))
    ensures Inv(Play(p)) && Inv(Seek(p, t).0) && Inv(Pause(p)) && Inv(ScheduleCompleted(p))
    ensures Inv(DisplayLinkTick(p, videoReady, audioReady))
    ensures 0 < |f.videoBuffers| && 0 < |f.audioBuffers| ==> Inv(NewFragment(p, f))
  {
  }

  /** While playing under the invariant, a tick really drains: the renderer's own guards pass. */
  lemma PlayingTickDrains(p: Player, videoReady: seq<Sample> -> bool, audioReady: seq<Sample> -> bool)
    requires Inv(p) && p.playState == Playing
    ensures DisplayLinkTick(p, videoReady, audioReady).renderer.videoSink
      == BR.DrainTrack(p.renderer.videoQueue, p.renderer.videoSink, videoReady).1
  {
  }

  /** A seek followed by a scheduled fragment's completion is playing again, with only that fragment queued. */
  lemma SeekThenFragmentResumes(p: Player, t: real, f: LoadedFragment)
    requires Inv(p) && 0 < |f.videoBuffers| && 0 < |f.audioBuffers|
    ensures var p' := ScheduleCompleted(NewFragment(Seek(p, t).0, f));
      && p'.playState == Playing && p'.renderer.isRunning
      && BR.VideoDelivered(p'.renderer) == f.videoBuffers
  {
    BR.SeekThenScheduleHoldsOnlyNewFragment(p.renderer, t, f);
  }

  /** A pause during buffering wins: the later completion does not resume playback. */
  lemma PauseWhileBufferingStaysPaused(p: Player, t: real)
    requires Inv(p)
    ensures ScheduleCompleted(Pause(Seek(p, t).0)).playState == Paused
    ensures !ScheduleCompleted(Pause(Seek(p, t).0)).renderer.isRunning
  {
  }

  /** Play does nothing before a session is attached. */
  lemma PlayNeedsSession(p: Player)
    requires !p.hasSession
    ensures Play(p) == p
  {
  }
}
