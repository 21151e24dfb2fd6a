/**
 * The two kinds of track record the matcher compares: the reference track
 * from the first catalog and a search result from the second.
 */
module Tracks {
  import opened Wrappers

  /** The reference track: `name`, the artists' names in order (primary
      first), the album name and the duration in milliseconds. */
  datatype SpotifyTrack = SpotifyTrack(
    name: string,
    artists: seq<string>,
    album: string,
    durationMs: int)

  /** One search result. A missing `title` or `duration_seconds` key is
      `None`; a missing or empty `artists` list is `[]`. */
  datatype Candidate = Candidate(
    title: Option<string>,
    artists: seq<string>,
    durationSeconds: Option<int>,
    videoId: string)
}
