/**
 * `PlaylistManager`: the "artist - song" splitter, the test that keeps the
 * original entry instead of the matched video, and the loop that turns a
 * playlist's entries into song records.
 */
module Playlists {
  import opened Wrappers
  import opened Text

  /** The `(song, artist, album)` triple of `extract_song_info`. */
  datatype SongFields = SongFields(title: string, artist: string, album: string)

  /** `is_artist`: every text is taken for an artist name. */
  predicate IsArtist(text: string) {
    true
  }

  /** `extract_song_info`: `video_title.split("-", 1)` unpacked into two
      stripped halves, which raises ValueError when there is no hyphen. The
      second half is the song and the first the artist; the album repeats
      the song. */
  function ExtractSongInfo(videoTitle: string): (r: Result<SongFields>)
    ensures '-' !in videoTitle <==> r == Raised(ValueError)
    ensures r.Ok? ==> r.value.album == r.value.title
  {
    match IndexOf(videoTitle, '-')
    case None => Raised(ValueError)
    case Some(d) =>
      var first := Strip(videoTitle[..d]);
      var second := Strip(videoTitle[d + 1..]);
      var (song, artist) := if IsArtist(second) then (second, first) else (first, second);
      Ok(SongFields(song, artist, song))
  }

  /** The split is at the first hyphen: later hyphens stay in the song. */
  lemma SplitAtFirstHyphen(s: string, d: nat)
    requires d < |s| && s[d] == '-' && '-' !in s[..d]
    ensures ExtractSongInfo(s) == Ok(SongFields(Strip(s[d + 1..]), Strip(s[..d]), Strip(s[d + 1..])))
  {
  }

  /** The `filename` of a song record. */
  function SongFilename(title: string, artist: string): string {
    title + " - " + artist
  }

  /** Text with no white space at either end. */
  predicate Stripped(s: string) {
    s == [] || (!IsSpace(s[0]) && !IsSpace(s[|s| - 1]))
  }

  /** Stripping `a + " "` gives back a stripped `a`. */
  lemma StripTrailingBlank(a: string)
    requires Stripped(a)
    ensures Strip(a + " ") == a
  {
    var t := a + " ";
    if a == [] {
      TrimLeftIs(t, IsSpace, 1);
    } else {
      TrimLeftIs(t, IsSpace, 0);
      assert t[0..] == t;
      TrimRightIs(t, IsSpace, |a|);
      assert t[..|a|] == a;
    }
  }

  /** Stripping `" " + b` gives back a stripped `b`. */
  lemma StripLeadingBlank(b: string)
    requires Stripped(b)
    ensures Strip(" " + b) == b
  {
    var t := " " + b;
    TrimLeftIs(t, IsSpace, 1);
    assert t[1..] == b;
    TrimRightIs(b, IsSpace, |b|);
    assert b[..|b|] == b;
  }

  /** Splitting "artist - song" recovers both parts, song first, when the
      artist has no hyphen and neither part has white space at its ends. */
  lemma ExtractFromJoined(artist: string, song: string)
    requires '-' !in artist && Stripped(artist) && Stripped(song)
    ensures ExtractSongInfo(artist + " - " + song) == Ok(SongFields(song, artist, song))
  {
    var t := artist + " - " + song;
    var d := |artist| + 1;
    assert t[..d] == artist + " ";
    assert t[d + 1..] == " " + song;
    assert '-' !in t[..d];
    SplitAtFirstHyphen(t, d);
    StripTrailingBlank(artist);
    StripLeadingBlank(song);
  }

  /** A record's filename reads back with its two parts exchanged:
      `extract_song_info` takes the part before the hyphen for the artist,
      while the filename puts the title there. */
  lemma FilenameReadsBackSwapped(title: string, artist: string)
    requires '-' !in title && Stripped(title) && Stripped(artist)
    ensures ExtractSongInfo(SongFilename(title, artist)) == Ok(SongFields(artist, title, artist))
  {
    ExtractFromJoined(title, artist);
  }

  // ---------------------------------------------------------------------
  // Keeping the original entry

  function AbsReal(x: real): real { if x < 0.0 then -x else x }

  /** The test in `standardize_playlist`: keep the original entry when its
      title is not part of the video's title and the durations differ by
      more than a fifth. `and` short-circuits, so the division happens only
      when the title test passes; `video["duration_ms"]` may be missing. */
  function KeepOriginal(title: string, videoTitle: string, durationMs: int,
                        videoDurationMs: Option<int>): (r: Result<bool>)
    ensures Contains(videoTitle, title) ==> r == Ok(false)
    ensures !Contains(videoTitle, title) && videoDurationMs.None? ==> r == Raised(KeyError)
    ensures !Contains(videoTitle, title) && videoDurationMs.Some? && durationMs == 0
            ==> r == Raised(ZeroDivisionError)
    ensures !Contains(videoTitle, title) && videoDurationMs.Some? && durationMs != 0
            ==> r == Ok(5 * AbsInt(durationMs - videoDurationMs.value) > AbsInt(durationMs))
  {
    if Contains(videoTitle, title) then Ok(false)
    else match videoDurationMs
      case None => Raised(KeyError)
      case Some(v) =>
        if durationMs == 0 then Raised(ZeroDivisionError)
        else
          RelativeGap(durationMs, v);
          Ok(AbsReal((durationMs - v) as real / durationMs as real) > 0.2)
  }

  /** `|(d - v) / d| > 0.2` is `5 * |d - v| > |d|` in exact arithmetic. */
  lemma RelativeGap(d: int, v: int)
    requires d != 0
    ensures AbsReal((d - v) as real / d as real) > 0.2 <==> 5 * AbsInt(d - v) > AbsInt(d)
  {
    var x := (d - v) as real;
    var y := d as real;
    var q := x / y;
    var ax, ay := AbsInt(d - v) as real, AbsInt(d) as real;
    assert ay > 0.0;
    assert AbsReal(q) == ax / ay by {
      QuotientAbs(x, y);
    }
    assert ax / ay > 0.2 <==> ax > 0.2 * ay by {
      QuotientAbove(ax, ay, 0.2);
    }
  }

  lemma QuotientAbs(x: real, y: real)
    requires y != 0.0
    ensures AbsReal(x / y) == AbsReal(x) / AbsReal(y)
  {
    if y < 0.0 {
      assert x / y == (-x) / (-y);
    }
  }

  lemma QuotientAbove(a: real, b: real, c: real)
    requires b > 0.0
    ensures a / b > c <==> a > c * b
  {
    assert a == (a / b) * b;
    if a / b > c {
      MultiplyAbove(a / b, c, b);
    } else {
      MultiplyAtMost(a / b, c, b);
    }
  }

  lemma MultiplyAbove(a: real, b: real, c: real)
    requires a > b && c > 0.0
    ensures a * c > b * c
  {
  }

  lemma MultiplyAtMost(a: real, b: real, c: real)
    requires a <= b && c > 0.0
    ensures a * c <= b * c
  {
  }

  /** The empty title of a playlist video is part of every title. */
  lemma ContainsEmpty(s: string)
    ensures Contains(s, "")
  {
    assert StartsWith(s, "");
  }

  // ---------------------------------------------------------------------
  // standardize_playlist

  /** One entry of the playlist. `hasFeedbackTokens` marks a video of the
      playlist itself; `inLibrary` marks an "artist - title" upload. A key
      that may be missing is an `Option`. */
  datatype PlaylistEntry = PlaylistEntry(
    hasFeedbackTokens: bool,
    inLibrary: bool,
    title: string,
    artist: Option<string>,
    videoId: string,
    durationMs: Option<int>,
    thumbnailUrls: seq<string>)

  /** A song record. */
  datatype Song = Song(title: string, artist: string, album: string, videoId: string,
                       thumbnailUrl: string, filename: string)

  datatype StdPlaylist = StdPlaylist(rawDir: string, cleanDir: string, songs: seq<Song>)

  /** Why an entry stops the loop, if it does. An entry that is not a video
      of the playlist goes to `find_best_match` without the `result_type`
      argument, which raises TypeError (after `extract_song_info` has had
      its chance to raise ValueError). */
  function EntryError(e: PlaylistEntry): Option<Exception> {
    if !e.hasFeedbackTokens then
      if e.inLibrary && '-' !in e.title then Some(ValueError) else Some(TypeError)
    else if e.artist.None? then Some(KeyError)
    else if e.thumbnailUrls == [] then Some(IndexError)
    else None
  }

  /** The record of a video entry: its own title, artist, id and last
      thumbnail, an empty album, and the filename of an empty title and
      artist. */
  function VideoSong(e: PlaylistEntry): Song
    requires EntryError(e).None?
  {
    Song(e.title, e.artist.value, "", e.videoId, e.thumbnailUrls[|e.thumbnailUrls| - 1],
         SongFilename("", ""))
  }

  /** `standardize_playlist`, with the search call that precedes
      `find_best_match` left out: it cannot change the outcome. */
  method StandardizePlaylist(root: string, playlist: string, entries: seq<PlaylistEntry>)
      returns (r: Result<StdPlaylist>)
    ensures r.Ok? <==> forall i :: 0 <= i < |entries| ==> EntryError(entries[i]).None?
    ensures r.Ok? ==> r.value.rawDir == root + "/raw/" + playlist
                      && r.value.cleanDir == root + "/clean/" + playlist
    ensures r.Ok? ==> |r.value.songs| == |entries|
                      && forall i :: 0 <= i < |entries| ==> r.value.songs[i] == VideoSong(entries[i])
    ensures r.Raised? ==> exists k :: 0 <= k < |entries|
                            && (forall i :: 0 <= i < k ==> EntryError(entries[i]).None?)
                            && EntryError(entries[k]) == Some(r.error)
  {
    var std := StdPlaylist(root + "/raw/" + playlist, root + "/clean/" + playlist, []);
    var i := 0;
    while i < |entries|
      invariant 0 <= i <= |entries|
      invariant std.rawDir == root + "/raw/" + playlist && std.cleanDir == root + "/clean/" + playlist
      invariant forall j :: 0 <= j < i ==> EntryError(entries[j]).None?
      invariant |std.songs| == i && forall j :: 0 <= j < i ==> std.songs[j] == VideoSong(entries[j])
    {
      var preprocessed := entries[i];
      var title, artist, album, durationMs := "", "", "", 0;
      if !preprocessed.hasFeedbackTokens {
        if preprocessed.inLibrary {
          var fields := ExtractSongInfo(preprocessed.title);
          if fields.Raised? {
            return Raised(fields.error);
          }
        }
        // `find_best_match(title=..., artist=..., duration_ms=..., youtube_results=...)`
        return Raised(TypeError);
      }
      var video := preprocessed;
      // the empty title is part of every title, so the test is Ok(false)
      ContainsEmpty(video.title);
      var keep := KeepOriginal(title, video.title, durationMs, video.durationMs);
      var best := if keep == Ok(true) then preprocessed else video;
      if best.artist.None? {
        return Raised(KeyError);
      }
      if best.thumbnailUrls == [] {
        return Raised(IndexError);
      }
      var song := Song(best.title, best.artist.value, album, best.videoId,
                       best.thumbnailUrls[|best.thumbnailUrls| - 1], SongFilename(title, artist));
      std := std.(songs := std.songs + [song]);
      i := i + 1;
    }
    return Ok(std);
  }
}
