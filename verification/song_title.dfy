/**
 * `get_song_title_artist`: two regular-expression searches over a video
 * title, "artist - title" first and "title (artist)" second, with the
 * whole text as the title when neither matches.
 *
 * The searches are modelled by what Python's backtracking matcher finds:
 * the leftmost start position, and at that position the first success in
 * the order lazy groups (shortest first) and greedy `\s*` (longest first)
 * try their alternatives. `.` matches any character but '\n'; `\s`
 * matches exactly the characters `str.isspace()` accepts.
 */
module TitleSplit {
  import opened Wrappers
  import opened Text

  /** The dictionary `{"title": ..., "artist": ...}`. */
  datatype SongInfo = SongInfo(title: string, artist: string)

  /** The least position in `[k, bound]` satisfying `P`. */
  function FirstWhere(P: nat -> bool, k: nat, bound: nat): (r: Option<nat>)
    ensures r.Some? ==> k <= r.value <= bound && P(r.value)
    ensures r.Some? ==> forall y :: k <= y < r.value ==> !P(y)
    ensures r.None? ==> forall y :: k <= y <= bound ==> !P(y)
    decreases bound + 1 - k
  {
    if k > bound then None
    else if P(k) then Some(k)
    else FirstWhere(P, k + 1, bound)
  }

  /** Where a greedy `\s*` starting at `i` stops. */
  function SkipSpace(s: string, i: nat): (j: nat)
    requires i <= |s|
    ensures i <= j <= |s| && (j == |s| || !IsSpace(s[j]))
    ensures forall m :: i <= m < j ==> IsSpace(s[m])
    decreases |s| - i
  {
    if i == |s| || !IsSpace(s[i]) then i else SkipSpace(s, i + 1)
  }

  /** Where a `.*` starting at `i` can reach: the next '\n', or the end. */
  function LineEnd(s: string, i: nat): (j: nat)
    requires i <= |s|
    ensures i <= j <= |s| && (j == |s| || s[j] == '\n')
    ensures forall m :: i <= m < j ==> s[m] != '\n'
    decreases |s| - i
  {
    if i == |s| || s[i] == '\n' then i else LineEnd(s, i + 1)
  }

  /** `\s*c` matches at `k`. */
  predicate Lands(s: string, k: nat, c: char)
    requires k <= |s|
  {
    var j := SkipSpace(s, k);
    j < |s| && s[j] == c
  }

  // ---------------------------------------------------------------------
  // (?P<artist>.*?)\s*-\s*(?P<title>.*)

  /** The positions `k` at which `\s*c` matches. */
  function LandsOn(s: string, c: char): nat -> bool {
    (k: nat) => k <= |s| && Lands(s, k, c)
  }

  /** The first regular expression, tried at start position `p`. */
  function HyphenMatchAt(s: string, p: nat): Option<SongInfo>
    requires p <= |s|
  {
    match FirstWhere(LandsOn(s, '-'), p, LineEnd(s, p))
    case None => None
    case Some(k) => Some(HyphenGroups(s, p, k))
  }

  /** The two groups when the lazy artist group spans `s[p..k]`: the title
      runs from the end of `\s*` after the hyphen to the end of the line. */
  function HyphenGroups(s: string, p: nat, k: nat): SongInfo
    requires p <= k <= |s| && Lands(s, k, '-')
  {
    var d := SkipSpace(s, k);
    var t := SkipSpace(s, d + 1);
    SongInfo(s[t..LineEnd(s, t)], s[p..k])
  }

  function HyphenStarts(s: string): nat -> bool {
    (p: nat) => p <= |s| && HyphenMatchAt(s, p).Some?
  }

  /** `re.search`: the match at the leftmost start position that has one. */
  function HyphenSearch(s: string): (r: Option<SongInfo>)
    ensures r.Some? ==> exists p :: 0 <= p <= |s| && HyphenMatchAt(s, p) == r
                          && forall q :: 0 <= q < p ==> HyphenMatchAt(s, q).None?
    ensures r.None? ==> forall p :: 0 <= p <= |s| ==> HyphenMatchAt(s, p).None?
  {
    match FirstWhere(HyphenStarts(s), 0, |s|)
    case None =>
      forall p | 0 <= p <= |s| ensures HyphenMatchAt(s, p).None? {
        assert !HyphenStarts(s)(p);
      }
      None
    case Some(p) =>
      forall q | 0 <= q < p ensures HyphenMatchAt(s, q).None? {
        assert !HyphenStarts(s)(q);
      }
      assert HyphenStarts(s)(p);
      HyphenMatchAt(s, p)
  }

  // ---------------------------------------------------------------------
  // (?P<title>.*?)\s*\(\s*(?P<artist>.*?)\s*\)

  /** Where the lazy artist group ends when it starts at `a`. */
  function ParenArtistEnd(s: string, a: nat): (r: Option<nat>)
    requires a <= |s|
    ensures r.Some? ==> r.value <= |s|
  {
    FirstWhere(LandsOn(s, ')'), a, LineEnd(s, a))
  }

  /** After `title\s*(`, where the artist group starts. */
  function AfterOpen(s: string, k: nat): nat
    requires k <= |s| && Lands(s, k, '(')
  {
    SkipSpace(s, SkipSpace(s, k) + 1)
  }

  /** The positions at which the title group can end. */
  function ParenTitle(s: string): nat -> bool {
    (k: nat) => k <= |s| && Lands(s, k, '(') && ParenArtistEnd(s, AfterOpen(s, k)).Some?
  }

  /** The second regular expression, tried at start position `p`. Giving up
      white space to the artist group after '(' never lets it reach a ')'
      that the longest `\s*` misses, so only the longest run is tried. */
  function ParenMatchAt(s: string, p: nat): Option<SongInfo>
    requires p <= |s|
  {
    match FirstWhere(ParenTitle(s), p, LineEnd(s, p))
    case None => None
    case Some(k) =>
      var a := AfterOpen(s, k);
      var j := ParenArtistEnd(s, a).value;
      Some(SongInfo(s[p..k], s[a..j]))
  }

  function ParenStarts(s: string): nat -> bool {
    (p: nat) => p <= |s| && ParenMatchAt(s, p).Some?
  }

  /** `re.search`: the match at the leftmost start position that has one. */
  function ParenSearch(s: string): (r: Option<SongInfo>)
    ensures r.Some? ==> exists p :: 0 <= p <= |s| && ParenMatchAt(s, p) == r
                          && forall q :: 0 <= q < p ==> ParenMatchAt(s, q).None?
    ensures r.None? ==> forall p :: 0 <= p <= |s| ==> ParenMatchAt(s, p).None?
  {
    match FirstWhere(ParenStarts(s), 0, |s|)
    case None =>
      forall p | 0 <= p <= |s| ensures ParenMatchAt(s, p).None? {
        assert !ParenStarts(s)(p);
      }
      None
    case Some(p) =>
      forall q | 0 <= q < p ensures ParenMatchAt(s, q).None? {
        assert !ParenStarts(s)(q);
      }
      assert ParenStarts(s)(p);
      ParenMatchAt(s, p)
  }

  /** `get_song_title_artist`: always a title and an artist, never `None`. */
  function GetSongTitleArtist(text: string): (r: SongInfo)
    ensures HyphenSearch(text).Some? ==> r == HyphenSearch(text).value
    ensures HyphenSearch(text).None? && ParenSearch(text).Some? ==> r == ParenSearch(text).value
    ensures HyphenSearch(text).None? && ParenSearch(text).None? ==> r == SongInfo(text, "")
  {
    match HyphenSearch(text)
    case Some(info) => info
    case None =>
      match ParenSearch(text)
      case Some(info) => info
      case None => SongInfo(text, "")
  }

  // ---------------------------------------------------------------------
  // Single-line titles

  function RStrip(s: string): string { TrimRight(s, IsSpace) }
  function LStrip(s: string): string { TrimLeft(s, IsSpace) }

  /** `FirstWhere` finds `x` when `x` is the first position satisfying `P`. */
  lemma {:induction false} FirstWhereIs(P: nat -> bool, k: nat, x: nat, bound: nat)
    requires k <= x <= bound && P(x)
    requires forall y :: k <= y < x ==> !P(y)
    ensures FirstWhere(P, k, bound) == Some(x)
    decreases x - k
  {
    if k < x {
      FirstWhereIs(P, k + 1, x, bound);
    }
  }

  /** `\s*` from `i` ends at `d` when only white space lies before it. */
  lemma {:induction false} SkipSpaceOver(s: string, i: nat, d: nat)
    requires i <= d < |s| && !IsSpace(s[d])
    requires forall m :: i <= m < d ==> IsSpace(s[m])
    ensures SkipSpace(s, i) == d
    decreases d - i
  {
    if i < d {
      SkipSpaceOver(s, i + 1, d);
    }
  }

  /** `\s*` from `k` stops no later than a non-space character at `n >= k`. */
  lemma SkipSpaceBefore(s: string, k: nat, n: nat)
    requires k <= n < |s| && !IsSpace(s[n])
    ensures SkipSpace(s, k) <= n
  {
  }

  lemma LineEndNoNewline(s: string, i: nat)
    requires i <= |s| && '\n' !in s
    ensures LineEnd(s, i) == |s|
  {
  }

  /** `\s*` from `i` stops where the left-stripped rest of the text begins. */
  lemma LStripSuffix(s: string, i: nat)
    requires i <= |s|
    ensures s[SkipSpace(s, i)..] == LStrip(s[i..])
  {
    var a := SkipSpace(s, i);
    TrimLeftIs(s[i..], IsSpace, a - i);
    assert s[i..][a - i..] == s[a..];
  }

  /** ... and, when a non-space character at `e` stops it, where the
      left-stripped `s[i..e]` begins. */
  lemma LStripBefore(s: string, i: nat, e: nat)
    requires i <= e < |s| && !IsSpace(s[e])
    ensures SkipSpace(s, i) <= e
    ensures s[SkipSpace(s, i)..e] == LStrip(s[i..e])
  {
    var a := SkipSpace(s, i);
    SkipSpaceBefore(s, i, e);
    TrimLeftIs(s[i..e], IsSpace, a - i);
    assert s[i..e][a - i..] == s[a..e];
  }

  /** In a line, `\s*c` matches first at the start of the white space that
      precedes the first `c` at or after `lo`. */
  lemma FirstLanding(s: string, c: char, lo: nat, d: nat) returns (k0: nat)
    requires lo <= d < |s| && s[d] == c && !IsSpace(c)
    requires forall m :: lo <= m < d ==> s[m] != c
    ensures lo <= k0 <= d && s[lo..k0] == RStrip(s[lo..d])
    ensures SkipSpace(s, k0) == d && Lands(s, k0, c)
    ensures forall k :: lo <= k < k0 ==> !Lands(s, k, c)
  {
    var t := s[lo..d];
    var r := RStrip(t);
    k0 := lo + |r|;
    assert r == s[lo..k0];
    forall m | k0 <= m < d ensures IsSpace(s[m]) {
      assert s[m] == t[m - lo];
    }
    SkipSpaceOver(s, k0, d);
    forall k | lo <= k < k0 ensures !Lands(s, k, c) {
      assert s[k0 - 1] == r[|r| - 1];
      SkipSpaceBefore(s, k, k0 - 1);
    }
  }

  /** For a single line with a hyphen, the artist is the text before the
      first hyphen without its trailing white space, and the title is the
      rest without its leading white space. */
  lemma HyphenForm(s: string, d: nat)
    requires '\n' !in s
    requires d < |s| && s[d] == '-'
    requires forall m :: 0 <= m < d ==> s[m] != '-'
    ensures GetSongTitleArtist(s) == SongInfo(LStrip(s[d + 1..]), RStrip(s[..d]))
  {
    HyphenMatchAtStart(s, d);
    FirstWhereIs(HyphenStarts(s), 0, 0, |s|);
  }

  /** On such text the hyphen pattern already matches at position 0. */
  lemma HyphenMatchAtStart(s: string, d: nat)
    requires '\n' !in s
    requires d < |s| && s[d] == '-'
    requires forall m :: 0 <= m < d ==> s[m] != '-'
    ensures HyphenMatchAt(s, 0) == Some(SongInfo(LStrip(s[d + 1..]), RStrip(s[..d])))
  {
    var k0 := FirstLanding(s, '-', 0, d);
    assert s[0..d] == s[..d];
    var artist := s[0..k0];
    assert artist == RStrip(s[..d]);
    LineEndNoNewline(s, 0);
    FirstWhereIs(LandsOn(s, '-'), 0, k0, |s|);
    assert FirstWhere(LandsOn(s, '-'), 0, LineEnd(s, 0)) == Some(k0);
    assert HyphenMatchAt(s, 0) == Some(HyphenGroups(s, 0, k0));
    HyphenGroupsAt(s, k0, d);
    LStripSuffix(s, d + 1);
  }

  /** The groups of a match whose hyphen is at `d`, on a single line. */
  lemma HyphenGroupsAt(s: string, k0: nat, d: nat)
    requires '\n' !in s
    requires k0 <= d < |s| && SkipSpace(s, k0) == d && s[d] == '-'
    ensures HyphenGroups(s, 0, k0) == SongInfo(s[SkipSpace(s, d + 1)..], s[0..k0])
  {
    var t := SkipSpace(s, d + 1);
    LineEndNoNewline(s, t);
    assert s[t..LineEnd(s, t)] == s[t..];
  }

  /** Without a hyphen the first expression never matches. */
  lemma NoHyphenNoMatch(s: string)
    requires '-' !in s
    ensures HyphenSearch(s).None?
  {
    forall p | 0 <= p <= |s| ensures HyphenMatchAt(s, p).None? {
      forall k | p <= k <= LineEnd(s, p) ensures !Lands(s, k, '-') {
        var j := SkipSpace(s, k);
        if j < |s| { assert s[j] in s; }
      }
    }
  }

  /** Inside the parentheses the lazy artist group starts after the white
      space that follows '(' and stops before the white space that precedes
      the first ')'. */
  lemma ParenArtistAt(s: string, c: nat, e: nat) returns (j0: nat)
    requires '\n' !in s
    requires c < e < |s| && s[e] == ')'
    requires forall m :: c < m < e ==> s[m] != ')'
    ensures ParenArtistEnd(s, SkipSpace(s, c + 1)) == Some(j0)
    ensures SkipSpace(s, c + 1) <= j0 <= |s|
    ensures s[SkipSpace(s, c + 1)..j0] == Strip(s[c + 1..e])
  {
    var a := SkipSpace(s, c + 1);
    LStripBefore(s, c + 1, e);
    j0 := FirstLanding(s, ')', a, e);
    LineEndNoNewline(s, a);
    forall y | a <= y < j0 ensures !LandsOn(s, ')')(y) {
    }
    FirstWhereIs(LandsOn(s, ')'), a, j0, |s|);
    assert s[a..j0] == RStrip(LStrip(s[c + 1..e]));
  }

  /** For a single line without a hyphen, where a ')' follows the first
      '(', the title is the text before the '(' without its trailing white
      space, and the artist is the stripped text up to the next ')'. */
  lemma ParenForm(s: string, c: nat, e: nat)
    requires '\n' !in s && '-' !in s
    requires c < e < |s| && s[c] == '(' && s[e] == ')'
    requires forall m :: 0 <= m < c ==> s[m] != '('
    requires forall m :: c < m < e ==> s[m] != ')'
    ensures GetSongTitleArtist(s) == SongInfo(RStrip(s[..c]), Strip(s[c + 1..e]))
  {
    NoHyphenNoMatch(s);
    var k0 := FirstLanding(s, '(', 0, c);
    LineEndNoNewline(s, 0);
    var j0 := ParenArtistAt(s, c, e);
    assert AfterOpen(s, k0) == SkipSpace(s, c + 1);
    FirstWhereIs(ParenTitle(s), 0, k0, |s|);
    assert s[0..k0] == RStrip(s[..c]);
    assert ParenMatchAt(s, 0) == Some(SongInfo(RStrip(s[..c]), Strip(s[c + 1..e])));
    FirstWhereIs(ParenStarts(s), 0, 0, |s|);
  }

  /** A single line with neither a hyphen nor a ')' after a '(' comes back
      whole, as the title, with an empty artist. */
  lemma NoMatchForm(s: string)
    requires '-' !in s
    requires forall c, e :: 0 <= c < e < |s| && s[c] == '(' ==> s[e] != ')'
    ensures GetSongTitleArtist(s) == SongInfo(s, "")
  {
    NoHyphenNoMatch(s);
    forall p | 0 <= p <= |s| ensures ParenMatchAt(s, p).None? {
      forall k | p <= k <= LineEnd(s, p) ensures !ParenTitle(s)(k) {
        if k <= |s| && Lands(s, k, '(') {
          var a := AfterOpen(s, k);
          forall j | a <= j <= LineEnd(s, a) ensures !Lands(s, j, ')') {
          }
        }
      }
    }
  }
}
