/**
 * `YouTubeMusicDownloader.find_best_match`: annotates each search result
 * dictionary in place with `duration_ms` and `artist`, and returns the
 * first result with the least Levenshtein-based distance to the reference.
 */
module YouTubeMatch {
  import opened Wrappers
  import Text

  /** An entry of a result's `artists` list. */
  datatype ArtistRef = ArtistRef(name: string, id: Option<string>)

  /** What `find_best_match` writes under `artist`: a list of names, or the
      reference artist string itself. */
  datatype ArtistField = Names(names: seq<string>) | Text(text: string)

  /** One search result dictionary. The keys the search returns never change;
      `duration_ms` and `artist` are written by `find_best_match`. A missing
      `duration_seconds` or `artists` key is `None`. */
  class SearchResult {
    const title: string
    const durationSeconds: Option<int>
    const artists: Option<seq<ArtistRef>>
    var durationMs: Option<int>
    var artist: Option<ArtistField>

    constructor(title: string, durationSeconds: Option<int>, artists: Option<seq<ArtistRef>>)
      ensures this.title == title && this.durationSeconds == durationSeconds
      ensures this.artists == artists
      ensures durationMs == None && artist == None
    {
      this.title := title;
      this.durationSeconds := durationSeconds;
      this.artists := artists;
      durationMs := None;
      artist := None;
    }
  }

  // ---------------------------------------------------------------------
  // Levenshtein distance

  function Min3(a: nat, b: nat, c: nat): nat {
    if a <= b && a <= c then a else if b <= c then b else c
  }

  /** Edit distance with unit-cost insertion, deletion and substitution. */
  function Lev(a: string, b: string): nat
    decreases |a| + |b|
  {
    if a == [] then |b|
    else if b == [] then |a|
    else if a[0] == b[0] then Lev(a[1..], b[1..])
    else 1 + Min3(Lev(a[1..], b), Lev(a, b[1..]), Lev(a[1..], b[1..]))
  }

  /** A string is at distance 0 from itself. */
  lemma {:induction false} LevSelf(a: string)
    ensures Lev(a, a) == 0
    decreases |a|
  {
    if a != [] {
      LevSelf(a[1..]);
    }
  }

  /** Distance 0 means equality. */
  lemma {:induction false} LevZero(a: string, b: string)
    requires Lev(a, b) == 0
    ensures a == b
    decreases |a| + |b|
  {
    if a != [] && b != [] {
      LevZero(a[1..], b[1..]);
      assert a == [a[0]] + a[1..] && b == [b[0]] + b[1..];
    }
  }

  /** The distance is symmetric. */
  lemma {:induction false} LevSymmetric(a: string, b: string)
    ensures Lev(a, b) == Lev(b, a)
    decreases |a| + |b|
  {
    if a != [] && b != [] {
      LevSymmetric(a[1..], b[1..]);
      if a[0] != b[0] {
        LevSymmetric(a[1..], b);
        LevSymmetric(a, b[1..]);
      }
    }
  }

  // ---------------------------------------------------------------------
  // The annotation written into each result

  /** `[artist["name"] for artist in song["artists"]]`. */
  function AllNames(refs: seq<ArtistRef>): (ns: seq<string>)
    ensures |ns| == |refs|
    ensures forall j :: 0 <= j < |refs| ==> ns[j] == refs[j].name
  {
    seq(|refs|, j requires 0 <= j < |refs| => refs[j].name)
  }

  /** The names of the artists whose `id` is not `None`, in order. */
  function IdentifiedNames(refs: seq<ArtistRef>): (ns: seq<string>)
    ensures |ns| <= |refs|
    ensures forall n :: n in ns <==> exists j :: 0 <= j < |refs| && refs[j].id.Some? && refs[j].name == n
  {
    if refs == [] then []
    else
      var rest := IdentifiedNames(refs[1..]);
      assert forall j :: 1 <= j < |refs| ==> refs[j] == refs[1..][j - 1];
      if refs[0].id.Some? then [refs[0].name] + rest else rest
  }

  /** The filter keeps the order of the list: names of a concatenation are
      the names of its parts, one after the other. */
  lemma {:induction false} IdentifiedNamesAppend(a: seq<ArtistRef>, b: seq<ArtistRef>)
    ensures IdentifiedNames(a + b) == IdentifiedNames(a) + IdentifiedNames(b)
    decreases |a|
  {
    if a == [] {
      assert a + b == b;
    } else {
      assert (a + b)[0] == a[0];
      assert (a + b)[1..] == a[1..] + b;
      IdentifiedNamesAppend(a[1..], b);
    }
  }

  /** The first name kept is that of the first artist with an id. */
  lemma {:induction false} IdentifiedNamesFirst(refs: seq<ArtistRef>, j: nat)
    requires j < |refs| && refs[j].id.Some?
    requires forall k :: 0 <= k < j ==> refs[k].id.None?
    ensures IdentifiedNames(refs) != [] && IdentifiedNames(refs)[0] == refs[j].name
    decreases j
  {
    if j > 0 {
      assert refs[1..][j - 1] == refs[j];
      assert forall k :: 0 <= k < j - 1 ==> refs[1..][k] == refs[k + 1];
      IdentifiedNamesFirst(refs[1..], j - 1);
    }
  }

  /** The `duration_ms` written in song mode. */
  function SongDurationMs(x: SearchResult, durationMs: int): int {
    match x.durationSeconds
    case None => durationMs
    case Some(s) => s * 1000
  }

  /** The `artist` written in song mode: the identified artists, or the
      reference artist when the key is missing or none is identified. */
  function SongArtist(x: SearchResult, artist: string): (f: ArtistField)
    ensures f.Names? ==> f.names != [] && x.artists.Some?
    ensures f.Text? ==> f.text == artist
    ensures x.artists.None? ==> f == Text(artist)
    ensures x.artists.Some? && IdentifiedNames(x.artists.value) != [] ==>
              f == Names(IdentifiedNames(x.artists.value))
    ensures x.artists.Some? && IdentifiedNames(x.artists.value) == [] ==> f == Text(artist)
  {
    match x.artists
    case None => Text(artist)
    case Some(refs) =>
      var ns := IdentifiedNames(refs);
      if |ns| < 1 then Text(artist) else Names(ns)
  }

  /** The result carries the song-mode annotation. */
  predicate SongAnnotated(x: SearchResult, artist: string, durationMs: int)
    reads x
  {
    x.durationMs == Some(SongDurationMs(x, durationMs)) && x.artist == Some(SongArtist(x, artist))
  }

  /** `song["artist"][0]`: the first name, or the first character of the
      reference artist when that string was stored. */
  function FirstArtist(f: ArtistField): string
    requires f.Names? ==> f.names != []
    requires f.Text? ==> f.text != []
  {
    match f
    case Names(ns) => ns[0]
    case Text(t) => t[..1]
  }

  /** The artist compared in song mode is the first artist of the result
      that has an id. */
  lemma SongArtistFirst(x: SearchResult, artist: string, j: nat)
    requires x.artists.Some? && j < |x.artists.value| && x.artists.value[j].id.Some?
    requires forall k :: 0 <= k < j ==> x.artists.value[k].id.None?
    ensures SongArtist(x, artist).Names?
    ensures FirstArtist(SongArtist(x, artist)) == x.artists.value[j].name
  {
    IdentifiedNamesFirst(x.artists.value, j);
  }

  // ---------------------------------------------------------------------
  // Distances

  /** No division by an empty length: song mode divides by `len(title)` and
      `len(artist)`, video mode by `len(title)` only. */
  predicate Scorable(title: string, artist: string, song: bool) {
    title != [] && (song ==> artist != [])
  }

  /** The distance of one result to the reference. */
  function Distance(title: string, artist: string, durationMs: int, x: SearchResult, song: bool): real
    requires Scorable(title, artist, song)
  {
    var titleDistance := Lev(title, x.title) as real / |title| as real;
    if song then
      titleDistance
      + Lev(artist, FirstArtist(SongArtist(x, artist))) as real / |artist| as real
      + Text.AbsInt(durationMs - SongDurationMs(x, durationMs)) as real / 1000.0
    else titleDistance
  }

  function Distances(title: string, artist: string, durationMs: int,
                     results: seq<SearchResult>, song: bool): (ds: seq<real>)
    requires Scorable(title, artist, song)
    ensures |ds| == |results|
    ensures forall j :: 0 <= j < |results| ==> ds[j] == Distance(title, artist, durationMs, results[j], song)
  {
    seq(|results|, j requires 0 <= j < |results| => Distance(title, artist, durationMs, results[j], song))
  }

  /** Distances are never negative. */
  lemma DistanceNonNegative(title: string, artist: string, durationMs: int, x: SearchResult, song: bool)
    requires Scorable(title, artist, song)
    ensures Distance(title, artist, durationMs, x, song) >= 0.0
  {
  }

  /** The position a left-to-right scan with a strict `<` keeps: the first
      position of a least element. */
  function FirstArgMin(ds: seq<real>): (m: nat)
    requires ds != []
    ensures m < |ds|
    ensures forall j :: 0 <= j < |ds| ==> ds[m] <= ds[j]
    ensures forall j :: 0 <= j < m ==> ds[m] < ds[j]
  {
    if |ds| == 1 then 0
    else
      var p := ds[..|ds| - 1];
      var m := FirstArgMin(p);
      assert forall j :: 0 <= j < |p| ==> p[j] == ds[j];
      if ds[|ds| - 1] < ds[m] then |ds| - 1 else m
  }

  /** One more step of the scan. */
  lemma FirstArgMinStep(ds: seq<real>, i: nat)
    requires 0 < i < |ds|
    ensures FirstArgMin(ds[..i + 1])
         == if ds[i] < ds[FirstArgMin(ds[..i])] then i else FirstArgMin(ds[..i])
  {
    assert ds[..i + 1][..i] == ds[..i];
  }

  /** The first dictionary is annotated unconditionally before the loop,
      which needs both keys. */
  predicate Annotatable(results: seq<SearchResult>) {
    results != [] && results[0].durationSeconds.Some? && results[0].artists.Some?
  }

  /** `find_best_match`. `resultType` selects song mode when it is "song",
      video mode otherwise. The returned object is one of the results. */
  method FindBestMatch(title: string, artist: string, durationMs: int,
                       results: seq<SearchResult>, resultType: string)
      returns (r: Result<SearchResult>)
    modifies results
    // errors: an empty list, a first result without the keys, a division by zero
    ensures results == [] ==> r == Raised(IndexError)
    ensures results != [] && !Annotatable(results) ==> r == Raised(KeyError)
    ensures Annotatable(results) && resultType == "song" && !Scorable(title, artist, true)
            ==> r == Raised(GenericException)
    ensures Annotatable(results) && resultType != "song" && title == []
            ==> r == Raised(ZeroDivisionError)
    ensures r.Ok? <==> Annotatable(results) && Scorable(title, artist, resultType == "song")
    // the choice: the first result at the least distance
    ensures r.Ok? ==>
              var ds := Distances(title, artist, durationMs, results, resultType == "song");
              r.value == results[FirstArgMin(ds)]
    // the new state
    ensures results == [] || results[0].durationSeconds.None? ==>
              forall j :: 0 <= j < |results| ==>
                   results[j].durationMs == old(results[j].durationMs)
                   && results[j].artist == old(results[j].artist)
    ensures results != [] && results[0].durationSeconds.Some? && results[0].artists.None? ==>
              results[0].durationMs == Some(results[0].durationSeconds.value * 1000)
              && results[0].artist == old(results[0].artist)
              && forall j :: 0 <= j < |results| && results[j] != results[0] ==>
                   results[j].durationMs == old(results[j].durationMs)
                   && results[j].artist == old(results[j].artist)
    ensures Annotatable(results) && resultType != "song" ==>
              results[0].durationMs == Some(results[0].durationSeconds.value * 1000)
              && results[0].artist == Some(Names(AllNames(results[0].artists.value)))
              && forall j :: 0 <= j < |results| && results[j] != results[0] ==>
                   results[j].durationMs == old(results[j].durationMs)
                   && results[j].artist == old(results[j].artist)
    ensures Annotatable(results) && resultType == "song" && !Scorable(title, artist, true) ==>
              SongAnnotated(results[0], artist, durationMs)
              && forall j :: 0 <= j < |results| && results[j] != results[0] ==>
                   results[j].durationMs == old(results[j].durationMs)
                   && results[j].artist == old(results[j].artist)
    ensures Annotatable(results) && resultType == "song" && Scorable(title, artist, true) ==>
              forall j :: 0 <= j < |results| ==> SongAnnotated(results[j], artist, durationMs)
  {
    if |results| == 0 {
      return Raised(IndexError);
    }
    var first := results[0];
    if first.durationSeconds.None? {
      return Raised(KeyError);
    }
    first.durationMs := Some(first.durationSeconds.value * 1000);
    if first.artists.None? {
      return Raised(KeyError);
    }
    first.artist := Some(Names(AllNames(first.artists.value)));
    r := ScanResults(title, artist, durationMs, results, resultType == "song");
  }

  /** The loop of `find_best_match`, after the first result has been
      annotated: song mode rewrites the annotation of every result before
      scoring it, and a strictly smaller distance replaces the best so far
      (which starts at infinity). */
  method ScanResults(title: string, artist: string, durationMs: int,
                     results: seq<SearchResult>, song: bool)
      returns (r: Result<SearchResult>)
    requires results != []
    modifies results
    ensures !Scorable(title, artist, song) ==>
              r == Raised(if song then GenericException else ZeroDivisionError)
    ensures Scorable(title, artist, song) ==>
              r == Ok(results[FirstArgMin(Distances(title, artist, durationMs, results, song))])
    ensures !song ==> forall j :: 0 <= j < |results| ==>
                   results[j].durationMs == old(results[j].durationMs)
                   && results[j].artist == old(results[j].artist)
    ensures song && !Scorable(title, artist, song) ==>
              SongAnnotated(results[0], artist, durationMs)
              && forall j :: 0 <= j < |results| && results[j] != results[0] ==>
                   results[j].durationMs == old(results[j].durationMs)
                   && results[j].artist == old(results[j].artist)
    ensures song && Scorable(title, artist, song) ==>
              forall j :: 0 <= j < |results| ==> SongAnnotated(results[j], artist, durationMs)
  {
    ghost var ds := if Scorable(title, artist, song) then Distances(title, artist, durationMs, results, song) else [];
    var best := results[0];
    var bestDistance: Option<real> := None;  // None is float("inf")
    ghost var bestIndex := 0;
    var i := 0;
    while i < |results|
      invariant 0 <= i <= |results| && bestIndex < |results|
      invariant !song || i == 0 ==> forall j :: 0 <= j < |results| ==>
                   results[j].durationMs == old(results[j].durationMs)
                   && results[j].artist == old(results[j].artist)
      invariant song ==> forall j :: 0 <= j < i ==> SongAnnotated(results[j], artist, durationMs)
      invariant i == 0 ==> bestDistance.None? && bestIndex == 0
      invariant i > 0 ==> Scorable(title, artist, song)
      invariant i > 0 ==> bestIndex < i && bestDistance == Some(ds[bestIndex])
      invariant i > 0 ==> bestIndex == FirstArgMin(ds[..i])
      invariant best == results[bestIndex]
    {
      var s := results[i];
      var scored := ScoreAt(title, artist, durationMs, results, i, song);
      if scored.Raised? {
        return Raised(scored.error);
      }
      var distance := scored.value;
      assert distance == ds[i];
      ScanStep(ds, i, bestIndex);
      if bestDistance.None? || distance < bestDistance.value {
        bestDistance := Some(distance);
        best := s;
        bestIndex := i;
      }
      ghost var prefix := ds[..i + 1];
      assert bestIndex == FirstArgMin(prefix) && bestDistance == Some(ds[bestIndex]);
      i := i + 1;
      assert ds[..i] == prefix;
    }
    assert ds[..i] == ds;
    return Ok(best);
  }

  /** The scan keeps the first least distance: a new position replaces the
      best one only when its distance is strictly smaller. */
  lemma ScanStep(ds: seq<real>, i: nat, m: nat)
    requires i < |ds| && m < |ds|
    requires i > 0 ==> m == FirstArgMin(ds[..i])
    ensures i == 0 || ds[i] < ds[m] ==> FirstArgMin(ds[..i + 1]) == i
    ensures i > 0 && ds[m] <= ds[i] ==> FirstArgMin(ds[..i + 1]) == m
  {
    if i > 0 {
      FirstArgMinStep(ds, i);
    } else {
      assert ds[..1] == [ds[0]];
    }
  }

  /** Scores result `i`: only that result changes, and in song mode the
      results up to it are annotated. */
  method ScoreAt(title: string, artist: string, durationMs: int,
                 results: seq<SearchResult>, i: nat, song: bool)
      returns (d: Result<real>)
    requires i < |results|
    requires song ==> forall j :: 0 <= j < i ==> SongAnnotated(results[j], artist, durationMs)
    modifies results[i]
    ensures song ==> forall j :: 0 <= j <= i ==> SongAnnotated(results[j], artist, durationMs)
    ensures forall j :: 0 <= j < |results| && (!song || results[j] != results[i]) ==>
              results[j].durationMs == old(results[j].durationMs)
              && results[j].artist == old(results[j].artist)
    ensures !Scorable(title, artist, song) ==>
              d == Raised(if song then GenericException else ZeroDivisionError)
    ensures Scorable(title, artist, song) ==> d == Ok(Distance(title, artist, durationMs, results[i], song))
  {
    var s := results[i];
    d := ScoreResult(title, artist, durationMs, s, song);
    forall j | 0 <= j < |results| && results[j] != s
      ensures results[j].durationMs == old(results[j].durationMs)
      ensures results[j].artist == old(results[j].artist)
    {
    }
  }

  /** One iteration of the loop on result `s`: the song-mode writes, then
      its distance, or the exception computing it raises. */
  method ScoreResult(title: string, artist: string, durationMs: int, s: SearchResult, song: bool)
      returns (d: Result<real>)
    modifies s
    ensures song ==> SongAnnotated(s, artist, durationMs)
    ensures !song ==> s.durationMs == old(s.durationMs) && s.artist == old(s.artist)
    ensures !Scorable(title, artist, song) ==>
              d == Raised(if song then GenericException else ZeroDivisionError)
    ensures Scorable(title, artist, song) ==> d == Ok(Distance(title, artist, durationMs, s, song))
  {
    if song {
      AnnotateSong(s, artist, durationMs);
      // the bare `except` turns every failure of the three terms into Exception
      if title == [] || artist == [] {
        return Raised(GenericException);
      }
      d := Ok(Lev(title, s.title) as real / |title| as real
              + Lev(artist, FirstArtist(s.artist.value)) as real / |artist| as real
              + Text.AbsInt(durationMs - s.durationMs.value) as real / 1000.0);
    } else {
      if title == [] {
        return Raised(ZeroDivisionError);
      }
      d := Ok(Lev(title, s.title) as real / |title| as real);
    }
  }

  /** The song-mode writes of one loop iteration. */
  method AnnotateSong(s: SearchResult, artist: string, durationMs: int)
    modifies s
    ensures SongAnnotated(s, artist, durationMs)
  {
    s.durationMs := if s.durationSeconds.None? then Some(durationMs)
                    else Some(s.durationSeconds.value * 1000);
    if s.artists.None? {
      s.artist := Some(Text(artist));
    } else {
      var names := IdentifiedNames(s.artists.value);
      s.artist := if |names| < 1 then Some(Text(artist)) else Some(Names(names));
    }
  }

  /** A result that equals the reference in title, artist and duration is at
      distance 0, so the scan stops at it or at an earlier perfect match. */
  lemma ExactMatchWins(title: string, artist: string, durationMs: int,
                       results: seq<SearchResult>, k: nat)
    requires Scorable(title, artist, true) && k < |results|
    requires results[k].title == title && SongDurationMs(results[k], durationMs) == durationMs
    requires FirstArtist(SongArtist(results[k], artist)) == artist
    ensures var ds := Distances(title, artist, durationMs, results, true);
            FirstArgMin(ds) <= k && ds[FirstArgMin(ds)] == 0.0
  {
    var ds := Distances(title, artist, durationMs, results, true);
    LevSelf(title);
    LevSelf(artist);
    assert ds[k] == 0.0;
    DistanceNonNegative(title, artist, durationMs, results[FirstArgMin(ds)], true);
  }

  /** In video mode the choice has the least title edit distance. */
  lemma VideoChoiceClosest(title: string, results: seq<SearchResult>, j: nat)
    requires title != [] && j < |results|
    ensures var m := FirstArgMin(Distances(title, "", 0, results, false));
            Lev(title, results[m].title) <= Lev(title, results[j].title)
  {
    var ds := Distances(title, "", 0, results, false);
    var m := FirstArgMin(ds);
    var n := |title| as real;
    assert ds[m] <= ds[j];
    assert Lev(title, results[m].title) as real / n <= Lev(title, results[j].title) as real / n;
    DivideMonotone(Lev(title, results[m].title) as real, Lev(title, results[j].title) as real, n);
  }

  lemma DivideMonotone(a: real, b: real, n: real)
    requires n > 0.0 && a / n <= b / n
    ensures a <= b
  {
    assert a == (a / n) * n && b == (b / n) * n;
  }
}
