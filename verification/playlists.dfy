/**
 * The parsed media playlists the engine works on. Manifest parsing is not part
 * of this model: a variant arrives already as a `Playlist` value.
 */
module Playlists {

  /** A byte range inside a remote resource. */
  datatype ByteRange = ByteRange(start: nat, length: nat)

  /** One media fragment: where to fetch it and its declared duration in seconds. */
  datatype Fragment = Fragment(duration: real, byteRange: ByteRange)

  /**
   * One quality variant: its id, declared bandwidth (bits per second), target
   * fragment duration (whole seconds), fragments, and the byte range of its
   * initialization section.
   */
  datatype Playlist = Playlist(
    id: int,
    bandwidth: nat,
    targetDuration: nat,
    fragments: seq<Fragment>,
    initSection: ByteRange)

  /** Declared durations of a playlist's fragments, in order. */
  function FragmentDurations(p: Playlist): (ds: seq<real>)
    ensures |ds| == |p.fragments|
    ensures forall i :: 0 <= i < |ds| ==> ds[i] == p.fragments[i].duration
  {
    seq(|p.fragments|, i requires 0 <= i < |p.fragments| => p.fragments[i].duration)
  }
}
