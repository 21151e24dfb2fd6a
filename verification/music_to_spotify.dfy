/**
 * The matching helpers of the stand-alone script `music_to_spotify.py`:
 * file names, durations as text, the official-upload heuristic, the two
 * heuristic scores, de-duplication of the track list, and the parser of
 * the model's "Candidate N: score" reply.
 */
module Notebook {
  import opened Wrappers
  import opened Text
  import opened Ranking

  /** The script's `Track` record (the fields the helpers read). */
  datatype Track = Track(name: string, artist: string, album: string, durationMs: int)

  /** The script's `YouTubeCandidate` record. `view_count` holds the text
      the search result gave, with commas and " views" already removed. */
  datatype YouTubeCandidate = YouTubeCandidate(
    videoId: string,
    title: string,
    artist: string,
    durationSeconds: int,
    viewCount: string,
    channelName: string,
    isOfficial: bool,
    isMusic: bool)

  // ---------------------------------------------------------------------
  // safe_filename

  predicate FilenameChar(c: char) {
    IsAsciiAlnum(c) || c == ' ' || c == '-' || c == '_' || c == '.'
  }

  /** The characters of `text` that may appear in a file name, in order. */
  function KeepFilenameChars(text: string): (r: string)
    ensures |r| <= |text|
    ensures forall i :: 0 <= i < |r| ==> FilenameChar(r[i])
    decreases |text|
  {
    if text == [] then []
    else (if FilenameChar(text[0]) then [text[0]] else []) + KeepFilenameChars(text[1..])
  }

  /** The filter works character by character: the kept characters of a
      concatenation are those of its parts, one after the other. */
  lemma {:induction false} KeepFilenameCharsAppend(a: string, b: string)
    ensures KeepFilenameChars(a + b) == KeepFilenameChars(a) + KeepFilenameChars(b)
    decreases |a|
  {
    if a == [] {
      assert a + b == b;
    } else {
      assert (a + b)[0] == a[0];
      assert (a + b)[1..] == a[1..] + b;
      KeepFilenameCharsAppend(a[1..], b);
    }
  }

  /** One character is kept exactly when it is allowed. */
  lemma KeepFilenameCharsOne(c: char)
    ensures KeepFilenameChars([c]) == if FilenameChar(c) then [c] else []
  {
    assert [c][1..] == [];
  }

  /** `safe_filename`: the allowed characters, then `strip()`. */
  function SafeFilename(text: string): (r: string)
    ensures forall i :: 0 <= i < |r| ==> FilenameChar(r[i])
    ensures r == [] || (r[0] != ' ' && r[|r| - 1] != ' ')
    // the kept characters, with the spaces at both ends removed
    ensures CutFromEnds(KeepFilenameChars(text), r, IsSpace)
  {
    SafeFilenameChars(text);
    Strip(KeepFilenameChars(text))
  }

  lemma SafeFilenameChars(text: string)
    ensures forall i :: 0 <= i < |Strip(KeepFilenameChars(text))| ==>
              FilenameChar(Strip(KeepFilenameChars(text))[i])
  {
    var kept := KeepFilenameChars(text);
    var r := Strip(kept);
    var k := StripIsSlice(kept);
    forall i | 0 <= i < |r| ensures FilenameChar(r[i]) {
      assert r[i] == kept[k + i];
    }
  }

  lemma {:induction false} KeepFilenameCharsOfSafe(s: string)
    requires forall i :: 0 <= i < |s| ==> FilenameChar(s[i])
    ensures KeepFilenameChars(s) == s
    decreases |s|
  {
    if s != [] {
      KeepFilenameCharsOfSafe(s[1..]);
      assert [s[0]] + s[1..] == s;
    }
  }

  /** Sanitising a sanitised name changes nothing. */
  lemma SafeFilenameIdempotent(text: string)
    ensures SafeFilename(SafeFilename(text)) == SafeFilename(text)
  {
    var r := SafeFilename(text);
    KeepFilenameCharsOfSafe(r);
    if r != [] {
      assert !IsSpace(r[0]) && !IsSpace(r[|r| - 1]);
      StripNoSpaceEnds(r);
    }
  }

  // ---------------------------------------------------------------------
  // format_duration and _parse_duration

  /** `f"{n:02d}"` for `0 <= n < 100`. */
  function TwoDigits(n: nat): (r: string)
    requires n < 100
    ensures |r| == 2 && AllDigits(r) && DigitsValue(r) == n
  {
    var r := [DigitChar(n / 10), DigitChar(n % 10)];
    assert r[..1] == [DigitChar(n / 10)] && r[..1][..0] == [];
    assert DigitsValue(r[..1]) == DigitsValue([]) * 10 + DigitValue(DigitChar(n / 10));
    assert DigitsValue(r[..1]) == n / 10;
    assert DigitsValue(r) == DigitsValue(r[..1]) * 10 + DigitValue(DigitChar(n % 10));
    r
  }

  /** `format_duration`: whole minutes, ':', and the remaining seconds as two
      digits. `//` and `%` by a positive number floor, as Dafny's do. */
  function FormatDuration(ms: int): (r: string)
    ensures |r| >= 4 && r[|r| - 3] == ':'
    ensures AllDigits(r[|r| - 2..]) && DigitsValue(r[|r| - 2..]) == (ms / 1000) % 60
  {
    var seconds := ms / 1000;
    var r := IntToString(seconds / 60) + ":" + TwoDigits(seconds % 60);
    assert r[|r| - 2..] == TwoDigits(seconds % 60);
    r
  }

  /** `_parse_duration`: "M:S", "H:M:S" or plain seconds; any text `int()`
      rejects makes the whole result 0. */
  function ParseDuration(s: string): (d: int)
    ensures s == "" ==> d == 0
    ensures ':' !in s && ParseInt(s).Some? ==> d == ParseInt(s).value
    // plain text `int()` rejects
    ensures ':' !in s && ParseInt(s).None? ==> d == 0
    // two or three parts, one of which `int()` rejects
    ensures var parts := SplitOn(s, ':');
            |parts| == 2 && (ParseInt(parts[0]).None? || ParseInt(parts[1]).None?) ==> d == 0
    ensures var parts := SplitOn(s, ':');
            (|parts| == 3 && (ParseInt(parts[0]).None? || ParseInt(parts[1]).None?
                              || ParseInt(parts[2]).None?)) ==> d == 0
    // four or more parts: `int()` rejects the whole text
    ensures |SplitOn(s, ':')| > 3 ==> d == 0
  {
    if s == "" then 0
    else
      var parts := SplitOn(s, ':');
      assert ':' !in s ==> parts == [s] by {
        if ':' !in s { SplitOnNoSep(s, ':'); }
      }
      if |parts| == 2 then ClockSeconds(Some(0), ParseInt(parts[0]), ParseInt(parts[1]))
      else if |parts| == 3 then ClockSeconds(ParseInt(parts[0]), ParseInt(parts[1]), ParseInt(parts[2]))
      else
        ColonRejected(s);
        ParseInt(s).GetOr(0)
  }

  /** Hours, minutes and seconds as seconds; 0 when `int()` rejected one. */
  function ClockSeconds(h: Option<int>, m: Option<int>, sec: Option<int>): int {
    if h.Some? && m.Some? && sec.Some? then h.value * 3600 + m.value * 60 + sec.value else 0
  }

  /** Text with a colon is not an integer. */
  lemma ColonRejected(s: string)
    ensures ':' in s ==> ParseInt(s).None?
  {
    if ':' in s {
      var j :| 0 <= j < |s| && s[j] == ':';
      ParseIntRejects(s, j);
    }
  }

  lemma ParseTwoParts(s: string, a: string, b: string, m: int, sec: int)
    requires s != "" && SplitOn(s, ':') == [a, b]
    requires ParseInt(a) == Some(m) && ParseInt(b) == Some(sec)
    ensures ParseDuration(s) == m * 60 + sec
  {
  }

  lemma ParseThreeParts(s: string, a: string, b: string, c: string, h: int, m: int, sec: int)
    requires s != "" && SplitOn(s, ':') == [a, b, c]
    requires ParseInt(a) == Some(h) && ParseInt(b) == Some(m) && ParseInt(c) == Some(sec)
    ensures ParseDuration(s) == h * 3600 + m * 60 + sec
  {
    var parts := SplitOn(s, ':');
    assert |parts| == 3 && parts[0] == a && parts[1] == b && parts[2] == c;
  }

  /** `a + ":" + b` splits into `a` and `b` when neither holds a colon. */
  lemma SplitTwo(a: string, b: string)
    requires ':' !in a && ':' !in b
    ensures SplitOn(a + ":" + b, ':') == [a, b]
  {
    assert a + ":" + b == a + [':'] + b;
    SplitOnAppend(a, ':', b);
    SplitOnNoSep(b, ':');
  }

  lemma SplitThree(a: string, b: string, c: string)
    requires ':' !in a && ':' !in b && ':' !in c
    ensures SplitOn(a + ":" + b + ":" + c, ':') == [a, b, c]
  {
    assert a + ":" + b + ":" + c == a + [':'] + (b + ":" + c);
    SplitTwo(b, c);
    SplitOnAppend(a, ':', b + ":" + c);
  }

  /** Parsing a formatted duration gives back its whole seconds, for every
      integer, negative ones included. */
  lemma DurationRoundTrip(ms: int)
    ensures ParseDuration(FormatDuration(ms)) == ms / 1000
  {
    var seconds := ms / 1000;
    assert FormatDuration(ms) == IntToString(seconds / 60) + ":" + TwoDigits(seconds % 60);
    MinutesSecondsRoundTrip(seconds);
  }

  /** Whole minutes, ':' and two-digit seconds parse back to the seconds. */
  lemma MinutesSecondsRoundTrip(seconds: int)
    ensures ParseDuration(IntToString(seconds / 60) + ":" + TwoDigits(seconds % 60)) == seconds
  {
    ParseFormattedMinutes(seconds / 60, seconds % 60);
  }

  /** Any minute count, ':' and two seconds digits parse as 60 M + S. */
  lemma ParseFormattedMinutes(m: int, sec: nat)
    requires sec < 100
    ensures ParseDuration(IntToString(m) + ":" + TwoDigits(sec)) == m * 60 + sec
  {
    var a, b := IntToString(m), TwoDigits(sec);
    assert ':' !in a;
    SplitTwo(a, b);
    IntToStringRoundTrip(m);
    ParseIntDigits(b);
    ParseTwoParts(a + ":" + b, a, b, m, sec);
  }

  /** "M:S" with decimal M and S is 60 M + S seconds. */
  lemma ParseMinutesSeconds(m: nat, sec: nat)
    ensures ParseDuration(NatToString(m) + ":" + NatToString(sec)) == 60 * m + sec
  {
    var a, b := NatToString(m), NatToString(sec);
    SplitTwo(a, b);
    ParseIntDigits(a);
    ParseIntDigits(b);
    DigitsValueOfNat(m);
    DigitsValueOfNat(sec);
    ParseTwoParts(a + ":" + b, a, b, m, sec);
  }

  /** "H:M:S" with decimal H, M and S is 3600 H + 60 M + S seconds. */
  lemma ParseHoursMinutesSeconds(h: nat, m: nat, sec: nat)
    ensures ParseDuration(NatToString(h) + ":" + NatToString(m) + ":" + NatToString(sec))
         == 3600 * h + 60 * m + sec
  {
    var a, b, c := NatToString(h), NatToString(m), NatToString(sec);
    var s := a + ":" + b + ":" + c;
    SplitThree(a, b, c);
    ParseIntDigits(a);
    ParseIntDigits(b);
    ParseIntDigits(c);
    DigitsValueOfNat(h);
    DigitsValueOfNat(m);
    DigitsValueOfNat(sec);
    ParseThreeParts(s, a, b, c, h, m, sec);
  }

  // ---------------------------------------------------------------------
  // _is_official_upload

  const OfficialIndicators: seq<string> :=
    ["official", "vevo", "records", "music", "- topic", "official video", "official audio"]

  predicate HasIndicator(indicators: seq<string>, title: string, channel: string) {
    exists i :: 0 <= i < |indicators|
      && (Contains(title, indicators[i]) || Contains(channel, indicators[i]))
  }

  /** `_is_official_upload`: the artist's name inside the channel name, or
      an official indicator in the title or the channel name, compared in
      lower case. */
  predicate IsOfficialUpload(title: string, channel: string, artist: string)
    // the two compound indicators never decide
    ensures IsOfficialUpload(title, channel, artist) <==>
              (Lower(artist) != "" && Contains(Lower(channel), Lower(artist)))
              || HasIndicator(OfficialIndicators[..5], Lower(title), Lower(channel))
  {
    RedundantIndicators(Lower(title), Lower(channel));
    var a := Lower(artist);
    (a != "" && Contains(Lower(channel), a))
    || HasIndicator(OfficialIndicators, Lower(title), Lower(channel))
  }

  /** The last two indicators add nothing: every text containing
      "official video" or "official audio" contains "official". */
  lemma RedundantIndicators(title: string, channel: string)
    ensures HasIndicator(OfficialIndicators, title, channel)
        <==> HasIndicator(OfficialIndicators[..5], title, channel)
  {
    if HasIndicator(OfficialIndicators, title, channel) {
      var i :| 0 <= i < 7 && (Contains(title, OfficialIndicators[i])
                              || Contains(channel, OfficialIndicators[i]));
      if i >= 5 {
        var tail := OfficialIndicators[i][8..];
        assert OfficialIndicators[i] == "official" + tail;
        if Contains(title, OfficialIndicators[i]) {
          ContainsPrefix(title, "official", tail);
          assert OfficialIndicators[..5][0] == "official";
        } else {
          ContainsPrefix(channel, "official", tail);
          assert OfficialIndicators[..5][0] == "official";
        }
      } else {
        assert OfficialIndicators[..5][i] == OfficialIndicators[i];
      }
    }
  }

  /** An auto-generated "Artist - Topic" channel always counts as official. */
  lemma TopicChannelOfficial(title: string, name: string, artist: string)
    ensures IsOfficialUpload(title, name + " - Topic", artist)
  {
    TopicSuffixOfficial(title, name, artist, " - Topic");
  }

  /** The same, with the suffix held in a variable so that its lower case
      is derived from `LowerTopicSuffix` rather than recomputed. */
  lemma TopicSuffixOfficial(title: string, name: string, artist: string, t: string)
    requires t == " - Topic"
    ensures IsOfficialUpload(title, name + t, artist)
  {
    var n, k := Lower(name), OfficialIndicators[4];
    LowerAppend(name, t);
    LowerTopicSuffix(t);
    assert n + ([' '] + k) == (n + [' ']) + k;
    ContainsSuffix(n + [' '], k);
    assert Contains(Lower(name + t), OfficialIndicators[4]);
  }

  lemma LowerTopicSuffix(t: string)
    requires t == " - Topic"
    ensures Lower(t) == [' '] + OfficialIndicators[4]
  {
    LowerAscii(t);
  }

  // ---------------------------------------------------------------------
  // _fallback_similarity

  /** Some word of `a` longer than three characters occurs in `b`. */
  predicate SharesLongWord(a: string, b: string) {
    var ws := Words(a);
    exists i :: 0 <= i < |ws| && |ws[i]| > 3 && Contains(b, ws[i])
  }

  /** The whole-second gap between a reference track and a candidate. */
  function DurationGap(durationMs: int, seconds: int): nat {
    var d := durationMs / 1000 - seconds;
    if d < 0 then -d else d
  }

  function TitleBonus(track: Track, c: YouTubeCandidate): (b: real)
    ensures b == 0.0 || b == 0.2 || b == 0.4
  {
    var sp, yt := Lower(track.name), Lower(c.title);
    if Contains(yt, sp) || Contains(sp, yt) then 0.4
    else if SharesLongWord(sp, yt) then 0.2
    else 0.0
  }

  function ArtistBonus(track: Track, c: YouTubeCandidate): (b: real)
    ensures b == 0.0 || b == 0.3
  {
    var sp, yt := Lower(track.artist), Lower(c.artist);
    if Contains(yt, sp) || Contains(sp, yt) then 0.3 else 0.0
  }

  function CloseDurationBonus(track: Track, c: YouTubeCandidate): (b: real)
    ensures b == 0.0 || b == 0.1 || b == 0.2
    ensures track.durationMs <= 0 ==> b == 0.0
  {
    if track.durationMs > 0 then
      var gap := DurationGap(track.durationMs, c.durationSeconds);
      if gap <= 5 then 0.2 else if gap <= 15 then 0.1 else 0.0
    else 0.0
  }

  function OfficialBonus(c: YouTubeCandidate): (b: real)
    ensures b == 0.0 || b == 0.1
  {
    if c.isOfficial then 0.1 else 0.0
  }

  /** `_fallback_similarity` as a sum of its four bonuses, capped at 1. */
  function FallbackSimilarity(track: Track, c: YouTubeCandidate): (s: real)
    ensures 0.0 <= s <= 1.0
  {
    var sum := TitleBonus(track, c) + ArtistBonus(track, c)
               + CloseDurationBonus(track, c) + OfficialBonus(c);
    if sum < 1.0 then sum else 1.0
  }

  /** The cap never binds in exact arithmetic: the bonuses add up to at
      most 1, and to exactly 1 only when every bonus is at its highest. */
  lemma FallbackSimilarityUncapped(track: Track, c: YouTubeCandidate)
    ensures FallbackSimilarity(track, c)
         == TitleBonus(track, c) + ArtistBonus(track, c)
            + CloseDurationBonus(track, c) + OfficialBonus(c)
    ensures FallbackSimilarity(track, c) == 1.0 <==>
              TitleBonus(track, c) == 0.4 && ArtistBonus(track, c) == 0.3
              && CloseDurationBonus(track, c) == 0.2 && c.isOfficial
  {
  }

  /** `_fallback_similarity`, accumulating `score` as the script does. */
  method FallbackScore(track: Track, c: YouTubeCandidate) returns (score: real)
    ensures score == FallbackSimilarity(track, c)
    ensures 0.0 <= score <= 1.0
  {
    score := 0.0;
    var spTitle, ytTitle := Lower(track.name), Lower(c.title);
    if Contains(ytTitle, spTitle) || Contains(spTitle, ytTitle) {
      score := score + 0.4;
    } else if SharesLongWord(spTitle, ytTitle) {
      score := score + 0.2;
    }
    var spArtist, ytArtist := Lower(track.artist), Lower(c.artist);
    if Contains(ytArtist, spArtist) || Contains(spArtist, ytArtist) {
      score := score + 0.3;
    }
    if track.durationMs > 0 {
      var gap := DurationGap(track.durationMs, c.durationSeconds);
      if gap <= 5 {
        score := score + 0.2;
      } else if gap <= 15 {
        score := score + 0.1;
      }
    }
    if c.isOfficial {
      score := score + 0.1;
    }
    if score > 1.0 {
      score := 1.0;
    }
  }

  // ---------------------------------------------------------------------
  // _calculate_quality_score

  const OfficialArtistWeight: real := 100.0
  const YouTubeMusicWeight: real := 90.0
  const VerifiedChannelWeight: real := 80.0
  const TopicChannelWeight: real := 70.0
  const HighViewsWeight: real := 30.0
  const ExactDurationWeight: real := 50.0
  const AudioQualityWeight: real := 40.0
  const MusicContentWeight: real := 20.0

  const AudioQualityTerms: seq<string> := ["hd", "hq", "high quality", "320", "flac", "lossless"]

  /** Official uploads earn one of three tiers, by channel and title. */
  function OfficialTier(c: YouTubeCandidate): (b: real)
    ensures !c.isOfficial <==> b == 0.0
    ensures c.isOfficial ==> b == OfficialArtistWeight || b == YouTubeMusicWeight
                             || b == VerifiedChannelWeight
  {
    var channel := Lower(c.channelName);
    if !c.isOfficial then 0.0
    else if Contains(channel, "vevo") || Contains(channel, "records") then OfficialArtistWeight
    else if Contains(Lower(c.title), "official") then YouTubeMusicWeight
    else VerifiedChannelWeight
  }

  function TopicBonus(c: YouTubeCandidate): (b: real)
    ensures b == 0.0 || b == TopicChannelWeight
  {
    if Contains(Lower(c.channelName), "- topic") then TopicChannelWeight else 0.0
  }

  /** 50 within 5 seconds, 25 within 15, otherwise (or without a reference
      duration) nothing. */
  function QualityDurationBonus(track: Track, c: YouTubeCandidate): (b: real)
    ensures b == 50.0 <==> track.durationMs > 0 && DurationGap(track.durationMs, c.durationSeconds) <= 5
    ensures b == 25.0 <==> track.durationMs > 0 && 5 < DurationGap(track.durationMs, c.durationSeconds) <= 15
    ensures b == 0.0 <==> track.durationMs <= 0 || DurationGap(track.durationMs, c.durationSeconds) > 15
  {
    if track.durationMs > 0 then
      var gap := DurationGap(track.durationMs, c.durationSeconds);
      if gap <= 5 then ExactDurationWeight
      else if gap <= 15 then ExactDurationWeight * 0.5
      else 0.0
    else 0.0
  }

  /** `int(str(view_count).replace(',', '').replace(' views', ''))`, or
      `None` where `int()` raises. */
  function ViewCount(c: YouTubeCandidate): Option<int> {
    ParseInt(RemoveAll(RemoveAll(c.viewCount, ","), " views"))
  }

  function ViewsBonus(c: YouTubeCandidate): (b: real)
    ensures b == 0.0 || b == HighViewsWeight || b == HighViewsWeight * 0.5
    ensures ViewCount(c).None? ==> b == 0.0
  {
    match ViewCount(c)
    case None => 0.0
    case Some(v) =>
      if v > 1000000 then HighViewsWeight
      else if v > 100000 then HighViewsWeight * 0.5
      else 0.0
  }

  predicate MentionsAudioQuality(title: string) {
    exists i :: 0 <= i < |AudioQualityTerms| && Contains(Lower(title), AudioQualityTerms[i])
  }

  /** `_calculate_quality_score` as the sum of its bonuses. */
  function QualityScore(c: YouTubeCandidate, track: Track): (s: real)
    ensures 0.0 <= s <= 310.0
  {
    OfficialTier(c) + TopicBonus(c) + QualityDurationBonus(track, c) + ViewsBonus(c)
    + (if MentionsAudioQuality(c.title) then AudioQualityWeight else 0.0)
    + (if c.isMusic then MusicContentWeight else 0.0)
  }

  /** An official upload always outranks, by at least 80 points, the same
      upload marked unofficial. */
  lemma OfficialOutranks(c: YouTubeCandidate, track: Track)
    requires c.isOfficial
    ensures QualityScore(c, track) >= QualityScore(c.(isOfficial := false), track) + 80.0
  {
    var u := c.(isOfficial := false);
    assert TopicBonus(u) == TopicBonus(c);
    assert QualityDurationBonus(track, u) == QualityDurationBonus(track, c);
    assert ViewCount(u) == ViewCount(c);
  }

  /** `_calculate_quality_score`, accumulating `score` as the script does. */
  method CalculateQualityScore(c: YouTubeCandidate, track: Track) returns (score: real)
    ensures score == QualityScore(c, track)
    ensures 0.0 <= score <= 310.0
  {
    score := 0.0;
    if c.isOfficial {
      var channel := Lower(c.channelName);
      if Contains(channel, "vevo") || Contains(channel, "records") {
        score := score + OfficialArtistWeight;
      } else if Contains(Lower(c.title), "official") {
        score := score + YouTubeMusicWeight;
      } else {
        score := score + VerifiedChannelWeight;
      }
    }
    assert score == OfficialTier(c);
    if Contains(Lower(c.channelName), "- topic") {
      score := score + TopicChannelWeight;
    }
    assert score == OfficialTier(c) + TopicBonus(c);
    if track.durationMs > 0 {
      var gap := DurationGap(track.durationMs, c.durationSeconds);
      if gap <= 5 {
        score := score + ExactDurationWeight;
      } else if gap <= 15 {
        score := score + ExactDurationWeight * 0.5;
      }
    }
    assert score == OfficialTier(c) + TopicBonus(c) + QualityDurationBonus(track, c);
    var views := ViewCount(c);
    if views.Some? {
      if views.value > 1000000 {
        score := score + HighViewsWeight;
      } else if views.value > 100000 {
        score := score + HighViewsWeight * 0.5;
      }
    }
    assert score == OfficialTier(c) + TopicBonus(c) + QualityDurationBonus(track, c) + ViewsBonus(c);
    if MentionsAudioQuality(c.title) {
      score := score + AudioQualityWeight;
    }
    if c.isMusic {
      score := score + MusicContentWeight;
    }
  }

  // ---------------------------------------------------------------------
  // _deduplicate_tracks

  /** `f"{name.lower().strip()}|{artist.lower().strip()}"`. */
  function Signature(t: Track): string {
    Strip(Lower(t.name)) + "|" + Strip(Lower(t.artist))
  }

  /** The keys of a list of entries. */
  function Keys<T>(ts: seq<T>, key: T -> string): set<string> {
    set i | 0 <= i < |ts| :: key(ts[i])
  }

  /** The entries the loop keeps, by induction on the input read so far. */
  function Deduplicated<T>(ts: seq<T>, key: T -> string): (u: seq<T>)
    decreases |ts|
  {
    if ts == [] then []
    else
      var u := Deduplicated(ts[..|ts| - 1], key);
      var t := ts[|ts| - 1];
      if key(t) in Keys(u, key) then u else u + [t]
  }

  /** Position `i` holds the first entry with its key. */
  predicate FirstOfKey<T>(ts: seq<T>, key: T -> string, i: nat)
    requires i < |ts|
  {
    forall j :: 0 <= j < i ==> key(ts[j]) != key(ts[i])
  }

  /** The reference definition: the entries at the first occurrence of
      their key, in input order. */
  function FirstOccurrences<T>(ts: seq<T>, key: T -> string): seq<T>
    decreases |ts|
  {
    if ts == [] then []
    else
      FirstOccurrences(ts[..|ts| - 1], key)
      + (if FirstOfKey(ts, key, |ts| - 1) then [ts[|ts| - 1]] else [])
  }

  lemma KeysAppend<T>(u: seq<T>, t: T, key: T -> string)
    ensures Keys(u + [t], key) == Keys(u, key) + {key(t)}
  {
    var v := u + [t];
    forall s | s in Keys(v, key) ensures s in Keys(u, key) + {key(t)} {
      var i :| 0 <= i < |v| && key(v[i]) == s;
      if i < |u| { assert v[i] == u[i]; }
    }
    forall s | s in Keys(u, key) ensures s in Keys(v, key) {
      var i :| 0 <= i < |u| && key(u[i]) == s;
      assert v[i] == u[i];
    }
    assert v[|u|] == t;
  }

  /** De-duplication keeps exactly the keys of its input. */
  lemma {:induction false} DeduplicatedKeys<T>(ts: seq<T>, key: T -> string)
    ensures Keys(Deduplicated(ts, key), key) == Keys(ts, key)
    decreases |ts|
  {
    if ts != [] {
      var p := ts[..|ts| - 1];
      var t := ts[|ts| - 1];
      DeduplicatedKeys(p, key);
      assert ts == p + [t];
      KeysAppend(p, t, key);
      if key(t) !in Keys(Deduplicated(p, key), key) {
        KeysAppend(Deduplicated(p, key), t, key);
      }
    }
  }

  /** The last entry is new exactly when no earlier entry has its key. */
  lemma LastIsFirstOfKey<T>(ts: seq<T>, key: T -> string)
    requires ts != []
    ensures FirstOfKey(ts, key, |ts| - 1) <==> key(ts[|ts| - 1]) !in Keys(ts[..|ts| - 1], key)
  {
    var p, n := ts[..|ts| - 1], |ts| - 1;
    if key(ts[n]) in Keys(p, key) {
      var j :| 0 <= j < |p| && key(p[j]) == key(ts[n]);
      assert ts[j] == p[j];
    }
    if !FirstOfKey(ts, key, n) {
      var j :| 0 <= j < n && key(ts[j]) == key(ts[n]);
      assert p[j] == ts[j];
    }
  }

  /** The loop's result is the reference one: the first entry of each key. */
  lemma {:induction false} DeduplicatedIsFirstOccurrences<T>(ts: seq<T>, key: T -> string)
    ensures Deduplicated(ts, key) == FirstOccurrences(ts, key)
    decreases |ts|
  {
    if ts != [] {
      var p := ts[..|ts| - 1];
      DeduplicatedIsFirstOccurrences(p, key);
      DeduplicatedKeys(p, key);
      LastIsFirstOfKey(ts, key);
    }
  }

  /** No two kept entries share a key. */
  lemma {:induction false} DeduplicatedDistinct<T>(ts: seq<T>, key: T -> string)
    ensures forall i, j :: 0 <= i < j < |Deduplicated(ts, key)| ==>
              key(Deduplicated(ts, key)[i]) != key(Deduplicated(ts, key)[j])
    decreases |ts|
  {
    if ts != [] {
      var p := ts[..|ts| - 1];
      var t := ts[|ts| - 1];
      var u := Deduplicated(p, key);
      DeduplicatedDistinct(p, key);
      if key(t) !in Keys(u, key) {
        var v := u + [t];
        forall i, j | 0 <= i < j < |v| ensures key(v[i]) != key(v[j]) {
          if j == |u| {
            assert v[i] == u[i];
            assert key(u[i]) in Keys(u, key);
          } else {
            assert v[i] == u[i] && v[j] == u[j];
          }
        }
      }
    }
  }

  lemma DeduplicatedStep<T>(ts: seq<T>, i: nat, key: T -> string)
    requires i < |ts|
    ensures Deduplicated(ts[..i + 1], key)
         == if key(ts[i]) in Keys(Deduplicated(ts[..i], key), key)
            then Deduplicated(ts[..i], key)
            else Deduplicated(ts[..i], key) + [ts[i]]
  {
    assert ts[..i + 1][..i] == ts[..i] && ts[..i + 1][i] == ts[i];
  }

  /** `_deduplicate_tracks`: a `seen` set of signatures and the list of
      tracks kept so far. */
  method DeduplicateTracks(tracks: seq<Track>) returns (unique: seq<Track>)
    ensures unique == FirstOccurrences(tracks, Signature)
    ensures Keys(unique, Signature) == Keys(tracks, Signature)
    ensures forall i, j :: 0 <= i < j < |unique| ==> Signature(unique[i]) != Signature(unique[j])
  {
    var seen: set<string> := {};
    unique := [];
    for i := 0 to |tracks|
      invariant unique == Deduplicated(tracks[..i], Signature)
      invariant seen == Keys(unique, Signature)
    {
      var t := tracks[i];
      var signature := Signature(t);
      DeduplicatedStep(tracks, i, Signature);
      if signature !in seen {
        KeysAppend(unique, t, Signature);
        seen := seen + {signature};
        unique := unique + [t];
      }
    }
    assert tracks[..|tracks|] == tracks;
    DeduplicatedIsFirstOccurrences(tracks, Signature);
    DeduplicatedKeys(tracks, Signature);
    DeduplicatedDistinct(tracks, Signature);
  }

  // ---------------------------------------------------------------------
  // The reply parser of analyze_song_similarity

  /** `[line.strip() for line in parts if line.strip()]`. */
  function NonBlankStripped(parts: seq<string>): (lines: seq<string>)
    ensures forall i :: 0 <= i < |lines| ==> lines[i] != ""
    decreases |parts|
  {
    if parts == [] then []
    else
      var rest := NonBlankStripped(parts[1..]);
      if Strip(parts[0]) != "" then [Strip(parts[0])] + rest else rest
  }

  /** The filter works part by part and keeps the parts' order. */
  lemma {:induction false} NonBlankStrippedAppend(a: seq<string>, b: seq<string>)
    ensures NonBlankStripped(a + b) == NonBlankStripped(a) + NonBlankStripped(b)
    decreases |a|
  {
    if a == [] {
      assert a + b == b;
    } else {
      assert (a + b)[0] == a[0] && (a + b)[1..] == a[1..] + b;
      NonBlankStrippedAppend(a[1..], b);
    }
  }

  /** One part gives its stripped text, or nothing when that is blank. */
  lemma NonBlankStrippedOne(p: string)
    ensures NonBlankStripped([p]) == if Strip(p) != "" then [Strip(p)] else []
  {
    assert [p][1..] == [];
  }

  function ReplyLines(response: string): seq<string> {
    NonBlankStripped(SplitOn(response, '\n'))
  }

  /** `int(head.split()[-1])`; `None` where it raises. */
  function CandidateNumber(head: string): Option<int> {
    var words := Words(head);
    if words == [] then None else ParseInt(words[|words| - 1])
  }

  /** `float(tail.strip().split()[0])`; `None` where it raises. */
  function ScoreOf(tail: string): Option<real> {
    var words := Words(Strip(tail));
    if words == [] then None else ParseFloat(words[0])
  }

  /** One reply line: `(N - 1, score)` for "Candidate ... N: score ..." with
      `1 <= N <= count`; `None` for any other line, including those where
      `int()`, `float()` or an index raises. */
  function ParseLine(line: string, count: nat): (r: Option<(nat, real)>)
    ensures r.Some? ==> r.value.0 < count && StartsWith(line, "Candidate")
  {
    if !StartsWith(line, "Candidate") then None
    else
      var parts := SplitOn(line, ':');
      if |parts| < 2 then None
      else
        match CandidateNumber(parts[0])
        case None => None
        case Some(n) =>
          match ScoreOf(parts[1])
          case None => None
          case Some(score) =>
            if 0 <= n - 1 < count then Some(((n - 1) as nat, score)) else None
  }

  /** The line format the prompt asks for, "Candidate N: 0.X - reason",
      here with any decimal score `a.f` and any reason without a ':', gives
      `(N - 1, a.f)` when `N` names one of the `count` candidates, and
      nothing otherwise. */
  lemma ParseLineScored(n: nat, a: string, f: string, reason: string, count: nat)
    requires AllDigits(a) && AllDigits(f) && |a| + |f| >= 1 && ':' !in reason
    ensures var r := ParseLine("Candidate " + NatToString(n) + ": " + a + "." + f + " " + reason, count);
            (r.Some? <==> 1 <= n <= count)
            && (r.Some? ==> r.value.0 == n - 1
                            && r.value.1 == DigitsValue(a) as real + DigitsValue(f) as real / Pow10(|f|) as real)
  {
    CandidateWord("Candidate", "Candidate ", ": ");
    DigitsValueOfNat(n);
    DottedNumber(a + "." + f, a, f);
    ParseFloatFraction(a, f);
    ScoredLineParts("Candidate", NatToString(n), a + "." + f, reason, count);
    ScoredLineText("Candidate", NatToString(n), a, f, reason);
  }

  /** `a.f` holds neither white space nor a colon. */
  lemma DottedNumber(num: string, a: string, f: string)
    requires AllDigits(a) && AllDigits(f) && num == a + "." + f
    ensures num != [] && forall j :: 0 <= j < |num| ==> !IsSpace(num[j]) && num[j] != ':'
  {
    DottedPieces(a, f);
    DottedChars(num, a, f);
  }

  lemma ScoredLineText(w: string, ds: string, a: string, f: string, reason: string)
    requires w == "Candidate"
    ensures "Candidate " + ds + ": " + a + "." + f + " " + reason
            == w + " " + ds + ([':'] + " ") + (a + "." + f + " " + reason)
  {
    CandidateWord(w, "Candidate ", ": ");
  }

  lemma ScoredLineParts(w: string, ds: string, num: string, reason: string, count: nat)
    requires w == "Candidate"
    requires forall j :: 0 <= j < |w| ==> !IsSpace(w[j]) && w[j] != ':'
    requires ds != [] && AllDigits(ds)
    requires num != [] && forall j :: 0 <= j < |num| ==> !IsSpace(num[j]) && num[j] != ':'
    requires ParseFloat(num).Some? && ':' !in reason
    ensures var r := ParseLine(w + " " + ds + ([':'] + " ") + (num + " " + reason), count);
            (r.Some? <==> 1 <= DigitsValue(ds) <= count)
            && (r.Some? ==> r.value.0 == DigitsValue(ds) - 1 && r.value.1 == ParseFloat(num).value)
  {
    var rest := num + " " + reason;
    var head, tail := w + " " + ds, " " + rest;
    var line := w + " " + ds + ([':'] + " ") + rest;
    ScoredLinePieces(w, ds, num, reason);
    HeadFacts(w, ds);
    ScoreOfWord(tail, num);
    ParseLineOf(line, count, head, tail, DigitsValue(ds), ParseFloat(num).value);
  }

  /** The split of a scored line, and the first word after its colon. */
  lemma ScoredLinePieces(w: string, ds: string, num: string, reason: string)
    requires forall j :: 0 <= j < |w| ==> w[j] != ':'
    requires ds != [] && AllDigits(ds)
    requires num != [] && forall j :: 0 <= j < |num| ==> !IsSpace(num[j]) && num[j] != ':'
    requires ':' !in reason
    ensures var rest := num + " " + reason;
            var line := w + " " + ds + ([':'] + " ") + rest;
            line[..|w|] == w && SplitOn(line, ':') == [w + " " + ds, " " + rest]
    ensures var ws := Words(Strip(" " + (num + " " + reason))); ws != [] && ws[0] == num
  {
    var rest := num + " " + reason;
    SplitCandidateLine(w, ds, rest);
    assert " " + rest == " " + num + " " + reason;
    StripFirstWord(num, reason);
  }

  /** A line "Candidate N: S" with a whole-number score `S` gives `(N - 1, S)`
      when `N` names one of the `count` candidates, and nothing otherwise. */
  lemma ParseLineWellFormed(n: nat, k: nat, count: nat)
    ensures var r := ParseLine("Candidate " + NatToString(n) + ": " + NatToString(k), count);
            (r.Some? <==> 1 <= n <= count)
            && (r.Some? ==> r.value.0 == n - 1 && r.value.1 == k as real)
  {
    var w, ds, ks := "Candidate", NatToString(n), NatToString(k);
    CandidateWord(w, "Candidate ", ": ");
    DigitsValueOfNat(n);
    DigitsValueOfNat(k);
    ParseLineParts(w, ds, ks, count);
  }

  lemma CandidateWord(w: string, ws: string, cs: string)
    requires w == "Candidate" && ws == "Candidate " && cs == ": "
    ensures ws == w + " " && cs == [':'] + " "
    ensures forall j :: 0 <= j < |w| ==> !IsSpace(w[j]) && w[j] != ':'
  {
  }

  lemma ParseLineParts(w: string, ds: string, ks: string, count: nat)
    requires w == "Candidate"
    requires forall j :: 0 <= j < |w| ==> !IsSpace(w[j]) && w[j] != ':'
    requires ds != [] && AllDigits(ds) && ks != [] && AllDigits(ks)
    ensures var r := ParseLine(w + " " + ds + ([':'] + " ") + ks, count);
            (r.Some? <==> 1 <= DigitsValue(ds) <= count)
            && (r.Some? ==> r.value.0 == DigitsValue(ds) - 1 && r.value.1 == DigitsValue(ks) as real)
  {
    var head, tail := w + " " + ds, " " + ks;
    var line := w + " " + ds + ([':'] + " ") + ks;
    assert ':' !in ks by {
      assert forall j :: 0 <= j < |ks| ==> ks[j] != ':';
    }
    SplitCandidateLine(w, ds, ks);
    HeadFacts(w, ds);
    TailFacts(ks);
    ParseLineOf(line, count, head, tail, DigitsValue(ds), DigitsValue(ks) as real);
  }

  /** The words before the colon, and the number among them. */
  lemma HeadFacts(w: string, ds: string)
    requires w == "Candidate"
    requires forall j :: 0 <= j < |w| ==> !IsSpace(w[j])
    requires ds != [] && AllDigits(ds)
    ensures CandidateNumber(w + " " + ds) == Some(DigitsValue(ds) as int)
  {
    WordsTwo(w, ds);
    ParseIntDigits(ds);
  }

  /** The score after the colon. */
  lemma TailFacts(ks: string)
    requires ks != [] && AllDigits(ks)
    ensures ScoreOf(" " + ks) == Some(DigitsValue(ks) as real)
  {
    TailWord(ks);
    ScoreOfWord(" " + ks, ks);
    ParseFloatDigits(ks);
  }

  lemma TailWord(ks: string)
    requires ks != [] && AllDigits(ks)
    ensures Words(Strip(" " + ks)) == [ks]
  {
    StripAfterSpace(ks);
    StrippedOneWord(" " + ks, ks);
  }

  lemma StrippedOneWord(s: string, ks: string)
    requires ks != [] && AllDigits(ks) && Strip(s) == ks
    ensures Words(Strip(s)) == [ks]
  {
    WordsOne(ks);
  }

  lemma ScoreOfWord(tail: string, w: string)
    requires Words(Strip(tail)) != [] && Words(Strip(tail))[0] == w
    ensures ScoreOf(tail) == ParseFloat(w)
  {
  }

  /** The line splits at its one colon. */
  lemma SplitCandidateLine(w: string, ds: string, rest: string)
    requires forall j :: 0 <= j < |w| ==> w[j] != ':'
    requires AllDigits(ds) && ':' !in rest
    ensures var line := w + " " + ds + ([':'] + " ") + rest;
            line[..|w|] == w && SplitOn(line, ':') == [w + " " + ds, " " + rest]
  {
    var head, tail := w + " " + ds, " " + rest;
    var line := w + " " + ds + ([':'] + " ") + rest;
    assert line == head + [':'] + tail;
    assert line[..|w|] == w;
    assert ':' !in head by {
      assert forall j :: 0 <= j < |w| ==> head[j] == w[j];
      assert forall j :: 0 <= j < |ds| ==> head[|w| + 1 + j] == ds[j];
    }
    SplitOnAppend(head, ':', tail);
    SplitOnNoSep(tail, ':');
    assert SplitOn(line, ':') == [head] + [tail];
  }

  /** The steps of the parser, given what each of them yields. */
  lemma ParseLineOf(line: string, count: nat, head: string, tail: string, n: int, x: real)
    requires StartsWith(line, "Candidate") && SplitOn(line, ':') == [head, tail]
    requires CandidateNumber(head) == Some(n) && ScoreOf(tail) == Some(x)
    ensures var r := ParseLine(line, count);
            (r.Some? <==> 1 <= n <= count) && (r.Some? ==> r.value.0 == n - 1 && r.value.1 == x)
  {
    var parts := SplitOn(line, ':');
    assert |parts| == 2 && parts[0] == head && parts[1] == tail;
  }

  /** `(" " + ds).strip()` is `ds` for a run of digits. */
  lemma StripAfterSpace(ds: string)
    requires ds != [] && AllDigits(ds)
    ensures Strip(" " + ds) == ds
  {
    TrimLeftIs(" " + ds, IsSpace, 1);
    assert (" " + ds)[1..] == ds;
    TrimRightIs(ds, IsSpace, |ds|);
    assert ds[..|ds|] == ds;
  }

  /** The `(candidate, score)` pairs gathered from the lines read so far. */
  function ParsedScores(lines: seq<string>, cands: seq<YouTubeCandidate>)
    : (s: seq<Scored<YouTubeCandidate>>)
    ensures forall i :: 0 <= i < |s| ==> s[i].item in cands
    decreases |lines|
  {
    if lines == [] then []
    else
      var s := ParsedScores(lines[..|lines| - 1], cands);
      match ParseLine(lines[|lines| - 1], |cands|)
      case None => s
      case Some((k, score)) => s + [Scored(score, cands[k])]
  }

  /** The fallback pairs: every candidate with its heuristic score. */
  function FallbackScores(track: Track, cands: seq<YouTubeCandidate>)
    : (s: seq<Scored<YouTubeCandidate>>)
    ensures |s| == |cands|
    ensures forall i :: 0 <= i < |s| ==>
              s[i].item == cands[i] && 0.0 <= s[i].score <= 1.0
  {
    seq(|cands|, i requires 0 <= i < |cands| => Scored(FallbackSimilarity(track, cands[i]), cands[i]))
  }

  /** The list `similarity_scores` before it is sorted. */
  function SimilarityScores(track: Track, cands: seq<YouTubeCandidate>, response: string)
    : seq<Scored<YouTubeCandidate>>
  {
    var parsed := ParsedScores(ReplyLines(response), cands);
    if parsed != [] then parsed else FallbackScores(track, cands)
  }

  /** The first loop of the parser: the pairs from the lines that parse. */
  method ParseReply(lines: seq<string>, cands: seq<YouTubeCandidate>)
    returns (scores: seq<Scored<YouTubeCandidate>>)
    ensures scores == ParsedScores(lines, cands)
  {
    scores := [];
    for i := 0 to |lines|
      invariant scores == ParsedScores(lines[..i], cands)
    {
      assert lines[..i + 1][..i] == lines[..i] && lines[..i + 1][i] == lines[i];
      var parsed := ParseLine(lines[i], |cands|);
      if parsed.Some? {
        var (k, score) := parsed.value;
        scores := scores + [Scored(score, cands[k])];
      }
    }
    assert lines[..|lines|] == lines;
  }

  /** The fallback loop: every candidate with its heuristic score. */
  method ScoreAllByFallback(track: Track, cands: seq<YouTubeCandidate>)
    returns (scores: seq<Scored<YouTubeCandidate>>)
    ensures scores == FallbackScores(track, cands)
  {
    scores := [];
    for j := 0 to |cands|
      invariant scores == FallbackScores(track, cands)[..j]
    {
      var score := FallbackScore(track, cands[j]);
      TakeOneMore(FallbackScores(track, cands), j);
      scores := scores + [Scored(score, cands[j])];
    }
    assert FallbackScores(track, cands)[..|cands|] == FallbackScores(track, cands);
  }

  /** The parse of `analyze_song_similarity`: gather the parsed pairs, fall
      back to the heuristic for every candidate when there are none, and
      rank by non-increasing score, ties in order. */
  method AnalyzeSimilarity(track: Track, cands: seq<YouTubeCandidate>, response: string)
    returns (r: seq<Scored<YouTubeCandidate>>)
    ensures r == SortDesc(SimilarityScores(track, cands, response))
    ensures StableRanking(r, SimilarityScores(track, cands, response))
    ensures forall i :: 0 <= i < |r| ==> r[i].item in cands
    ensures ParsedScores(ReplyLines(response), cands) == [] ==>
              |r| == |cands| && forall i :: 0 <= i < |r| ==> 0.0 <= r[i].score <= 1.0
  {
    var scores := ParseReply(ReplyLines(response), cands);
    if scores == [] {
      scores := ScoreAllByFallback(track, cands);
      FallbackRanking(track, cands);
    }
    assert scores == SimilarityScores(track, cands, response);
    ScoresNameCandidates(track, cands, response);
    CandidateRanking(scores, cands);
    r := SortDesc(scores);
  }

  /** Every scored pair, parsed or fallback, names one of the candidates. */
  lemma ScoresNameCandidates(track: Track, cands: seq<YouTubeCandidate>, response: string)
    ensures forall i :: 0 <= i < |SimilarityScores(track, cands, response)| ==>
              SimilarityScores(track, cands, response)[i].item in cands
  {
    var s := SimilarityScores(track, cands, response);
    forall i | 0 <= i < |s| ensures s[i].item in cands {
      if ParsedScores(ReplyLines(response), cands) == [] {
        assert s[i].item == cands[i];
      }
    }
  }

  /** Ranking pairs that name candidates gives pairs that name candidates. */
  lemma CandidateRanking(s: seq<Scored<YouTubeCandidate>>, cands: seq<YouTubeCandidate>)
    requires forall i :: 0 <= i < |s| ==> s[i].item in cands
    ensures StableRanking(SortDesc(s), s)
    ensures forall i :: 0 <= i < |SortDesc(s)| ==> SortDesc(s)[i].item in cands
  {
    var r := SortDesc(s);
    SortDescRanks(s);
    RankingEntries(r, s);
    forall i | 0 <= i < |r| ensures r[i].item in cands {
      var j :| 0 <= j < |s| && s[j] == r[i];
    }
  }

  /** Ranked fallback scores keep one pair per candidate, each in [0, 1]. */
  lemma FallbackRanking(track: Track, cands: seq<YouTubeCandidate>)
    ensures |SortDesc(FallbackScores(track, cands))| == |cands|
    ensures forall i :: 0 <= i < |SortDesc(FallbackScores(track, cands))| ==>
              0.0 <= SortDesc(FallbackScores(track, cands))[i].score <= 1.0
  {
    var s := FallbackScores(track, cands);
    var r := SortDesc(s);
    SortDescRanks(s);
    RankingEntries(r, s);
    forall i | 0 <= i < |r| ensures 0.0 <= r[i].score <= 1.0 {
      var j :| 0 <= j < |s| && s[j] == r[i];
    }
  }
}
