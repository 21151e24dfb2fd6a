/**
 * `FuzzyMatcher`: scores search results against a reference track by a
 * weighted sum of title, artist and duration similarity, ranks them, and
 * decides whether the top result is clear enough or the language model
 * should choose among the top three.
 */
module FuzzyMatching {
  import opened Wrappers
  import opened Tracks
  import opened Ranking
  import opened TextProcessing
  import opened LlmClient
  import opened LlmMatching

  /** A `fuzz.token_sort_ratio` value. */
  type Ratio = r: int | 0 <= r <= 100

  /** A `jaro_winkler` value. */
  type Unit = x: real | 0.0 <= x <= 1.0

  /** The two library similarity functions, as inputs of the model. */
  datatype Similarity = Similarity(
    tokenSortRatio: (string, string) -> Ratio,
    jaroWinkler: (string, string) -> Unit)

  /** The defaults of the configuration. */
  const DefaultScoreThreshold: real := 85.0
  const DefaultScoreDifference: real := 15.0
  const DefaultTitleWeight: real := 0.5
  const DefaultArtistWeight: real := 0.3
  const DefaultDurationWeight: real := 0.2

  /** `max(0, 100 - abs(sp_duration - yt_duration))` on whole seconds; the
      reference duration is `duration_ms // 1000`, which for the positive
      divisor 1000 is Dafny's `/`. */
  function DurationScore(refMs: int, seconds: int): (d: int)
    ensures 0 <= d <= 100
    ensures d == 100 <==> refMs / 1000 == seconds
    ensures d == 0 <==> refMs / 1000 - seconds >= 100 || seconds - refMs / 1000 >= 100
  {
    var gap := refMs / 1000 - seconds;
    var diff := if gap < 0 then -gap else gap;
    if 100 - diff < 0 then 0 else 100 - diff
  }

  /** The title compared: `preprocess_text(yt_track.get("title", ""))`. */
  function CandidateTitle(c: Candidate): (t: string)
    ensures c.title.None? ==> t == ""
  {
    Preprocess(c.title.GetOr(""))
  }

  /** The artist compared: the first listed artist, or "" when there is none. */
  function CandidateArtist(c: Candidate): (a: string)
    ensures c.artists == [] ==> a == ""
  {
    if c.artists != [] then Preprocess(c.artists[0]) else ""
  }

  /** The three signals for one candidate, each in [0, 100]. */
  datatype Signals = Signals(title: real, artist: real, duration: real)

  predicate InPercentRange(x: real) { 0.0 <= x <= 100.0 }

  function CandidateSignals(sim: Similarity, track: SpotifyTrack, c: Candidate): (g: Signals)
    requires track.artists != []
    ensures InPercentRange(g.title) && InPercentRange(g.artist) && InPercentRange(g.duration)
  {
    var refTitle := Preprocess(track.name);
    var refArtist := Preprocess(track.artists[0]);
    Signals(
      sim.tokenSortRatio(refTitle, CandidateTitle(c)) as real,
      sim.jaroWinkler(refArtist, CandidateArtist(c)) * 100.0,
      DurationScore(track.durationMs, c.durationSeconds.GetOr(0)) as real)
  }

  /** Weights that make the total a weighted average. */
  predicate ConvexWeights(wt: real, wa: real, wd: real) {
    wt >= 0.0 && wa >= 0.0 && wd >= 0.0 && wt + wa + wd == 1.0
  }

  /** The weighted total. With convex weights it lies between the smallest
      and the largest of the three signals. */
  function Weighted(g: Signals, wt: real, wa: real, wd: real): (w: real)
    ensures ConvexWeights(wt, wa, wd) ==>
              Min3(g.title, g.artist, g.duration) <= w <= Max3(g.title, g.artist, g.duration)
  {
    var t, a, d := g.title, g.artist, g.duration;
    if ConvexWeights(wt, wa, wd) then
      SumAtMost(t, a, d, wt, wa, wd, Max3(t, a, d));
      SumAtLeast(t, a, d, wt, wa, wd, Min3(t, a, d));
      t * wt + a * wa + d * wd
    else t * wt + a * wa + d * wd
  }

  /** With convex weights the total stays within [0, 100]. */
  lemma WeightedBounds(g: Signals, wt: real, wa: real, wd: real)
    requires ConvexWeights(wt, wa, wd)
    requires InPercentRange(g.title) && InPercentRange(g.artist) && InPercentRange(g.duration)
    ensures InPercentRange(Weighted(g, wt, wa, wd))
  {
  }

  lemma SumAtMost(t: real, a: real, d: real, wt: real, wa: real, wd: real, hi: real)
    requires ConvexWeights(wt, wa, wd)
    requires t <= hi && a <= hi && d <= hi
    ensures t * wt + a * wa + d * wd <= hi
  {
    Distribute(hi, wt, wa, wd);
    assert hi - (t * wt + a * wa + d * wd) == (hi - t) * wt + (hi - a) * wa + (hi - d) * wd;
    NonNegativeProduct(hi - t, wt);
    NonNegativeProduct(hi - a, wa);
    NonNegativeProduct(hi - d, wd);
  }

  lemma SumAtLeast(t: real, a: real, d: real, wt: real, wa: real, wd: real, lo: real)
    requires ConvexWeights(wt, wa, wd)
    requires lo <= t && lo <= a && lo <= d
    ensures lo <= t * wt + a * wa + d * wd
  {
    Distribute(lo, wt, wa, wd);
    assert (t * wt + a * wa + d * wd) - lo == (t - lo) * wt + (a - lo) * wa + (d - lo) * wd;
    NonNegativeProduct(t - lo, wt);
    NonNegativeProduct(a - lo, wa);
    NonNegativeProduct(d - lo, wd);
  }

  lemma NonNegativeProduct(x: real, w: real)
    requires x >= 0.0 && w >= 0.0
    ensures x * w >= 0.0
  {
  }

  lemma Distribute(x: real, wt: real, wa: real, wd: real)
    requires wt + wa + wd == 1.0
    ensures x * wt + x * wa + x * wd == x
  {
    assert x * wt + x * wa + x * wd == x * (wt + wa + wd);
  }

  function Max3(a: real, b: real, c: real): (m: real)
    ensures a <= m && b <= m && c <= m && (m == a || m == b || m == c)
  {
    if a >= b && a >= c then a else if b >= c then b else c
  }

  function Min3(a: real, b: real, c: real): (m: real)
    ensures m <= a && m <= b && m <= c && (m == a || m == b || m == c)
  {
    if a <= b && a <= c then a else if b <= c then b else c
  }

  /** The configured weights are convex. */
  lemma DefaultWeightsConvex()
    ensures ConvexWeights(DefaultTitleWeight, DefaultArtistWeight, DefaultDurationWeight)
  {
  }

  /** The escalation rule of `select_best_match` on a ranked list. */
  predicate Escalates(ranked: seq<Scored<Candidate>>, threshold: real, difference: real)
    // an empty list never escalates
    ensures Escalates(ranked, threshold, difference) ==> ranked != []
    // only the two best scores decide
    ensures |ranked| > 2 ==>
              (Escalates(ranked, threshold, difference) <==> Escalates(ranked[..2], threshold, difference))
  {
    (|ranked| > 0 && ranked[0].score < threshold)
    || (|ranked| > 1 && ranked[0].score - ranked[1].score < difference)
  }

  class FuzzyMatcher {
    const titleWeight: real
    const artistWeight: real
    const durationWeight: real
    const scoreThreshold: real
    const scoreDifference: real
    var llmMatcher: Option<LlmMatcher>

    constructor(titleWeight: real, artistWeight: real, durationWeight: real,
                scoreThreshold: real, scoreDifference: real, llmMatcher: Option<LlmMatcher>)
      ensures this.titleWeight == titleWeight && this.artistWeight == artistWeight
      ensures this.durationWeight == durationWeight
      ensures this.scoreThreshold == scoreThreshold && this.scoreDifference == scoreDifference
      ensures this.llmMatcher == llmMatcher
    {
      this.titleWeight := titleWeight;
      this.artistWeight := artistWeight;
      this.durationWeight := durationWeight;
      this.scoreThreshold := scoreThreshold;
      this.scoreDifference := scoreDifference;
      this.llmMatcher := llmMatcher;
    }

    /** `set_llm_matcher`. */
    method SetLlmMatcher(m: Option<LlmMatcher>)
      modifies this
      ensures llmMatcher == m
    {
      llmMatcher := m;
    }

    /** `total_score` of one candidate. */
    function TotalScore(sim: Similarity, track: SpotifyTrack, c: Candidate): real
      requires track.artists != []
    {
      Weighted(CandidateSignals(sim, track, c), titleWeight, artistWeight, durationWeight)
    }

    /** The pair `(total_score, yt_track)`. */
    function Entry(sim: Similarity, track: SpotifyTrack, c: Candidate): (e: Scored<Candidate>)
      requires track.artists != []
      ensures e.item == c && e.score == TotalScore(sim, track, c)
    {
      Scored(TotalScore(sim, track, c), c)
    }

    /** The list `scored_results` before it is sorted: one pair per result,
        in input order. */
    function Unranked(sim: Similarity, track: SpotifyTrack, results: seq<Candidate>)
      : (s: seq<Scored<Candidate>>)
      requires track.artists != []
      ensures |s| == |results|
      ensures forall i :: 0 <= i < |s| ==> s[i] == Entry(sim, track, results[i])
    {
      seq(|results|, i requires 0 <= i < |results| => Entry(sim, track, results[i]))
    }

    /** `score_candidates`. A reference track without artists raises
        IndexError before any result is looked at; otherwise the result is
        the stable descending sort of one pair per search result. */
    method ScoreCandidates(sim: Similarity, track: SpotifyTrack, results: seq<Candidate>)
      returns (r: Result<seq<Scored<Candidate>>>)
      ensures track.artists == [] <==> r == Raised(IndexError)
      ensures r.Ok? ==> r.value == SortDesc(Unranked(sim, track, results))
      ensures r.Ok? ==> StableRanking(r.value, Unranked(sim, track, results))
      ensures r.Ok? && ConvexWeights(titleWeight, artistWeight, durationWeight) ==>
                AllInPercentRange(r.value)
    {
      if track.artists == [] {
        return Raised(IndexError);
      }
      var scored: seq<Scored<Candidate>> := [];
      var i := 0;
      while i < |results|
        invariant 0 <= i <= |results|
        invariant scored == Unranked(sim, track, results)[..i]
      {
        TakeOneMore(Unranked(sim, track, results), i);
        scored := scored + [Entry(sim, track, results[i])];
        i := i + 1;
      }
      assert scored == Unranked(sim, track, results);
      RankedScores(sim, track, results);
      r := Ok(SortDesc(scored));
    }

    /** The sorted scores rank the candidates, and with convex weights
        every one lies in [0, 100]. */
    lemma RankedScores(sim: Similarity, track: SpotifyTrack, results: seq<Candidate>)
      requires track.artists != []
      ensures StableRanking(SortDesc(Unranked(sim, track, results)), Unranked(sim, track, results))
      ensures ConvexWeights(titleWeight, artistWeight, durationWeight) ==>
                AllInPercentRange(SortDesc(Unranked(sim, track, results)))
    {
      var s := Unranked(sim, track, results);
      SortDescRanks(s);
      if ConvexWeights(titleWeight, artistWeight, durationWeight) {
        ScoresInRange(sim, track, results);
        RankedInRange(s);
      }
    }

    /** With convex weights every total lies in [0, 100]. */
    lemma ScoresInRange(sim: Similarity, track: SpotifyTrack, results: seq<Candidate>)
      requires track.artists != []
      requires ConvexWeights(titleWeight, artistWeight, durationWeight)
      ensures AllInPercentRange(Unranked(sim, track, results))
    {
      forall i | 0 <= i < |results|
        ensures InPercentRange(Unranked(sim, track, results)[i].score)
      {
        WeightedBounds(CandidateSignals(sim, track, results[i]),
                       titleWeight, artistWeight, durationWeight);
      }
    }

    /** `select_best_match`. */
    function SelectBestMatch(track: SpotifyTrack, ranked: seq<Scored<Candidate>>,
                             reply: LlmReply, decode: string -> JsonDoc): (r: Result<Selection>)
      reads this
      // an empty list gives `{}` and never consults the model
      ensures ranked == [] ==> r == Ok(NoMatch)
      // a clear winner, or no model to ask, gives the top-ranked candidate
      ensures (ranked != [] && !(Escalates(ranked, scoreThreshold, scoreDifference) && llmMatcher.Some?))
                ==> r == Ok(Match(ranked[0].item))
      // otherwise the model judges the first three candidates, without scores
      ensures Escalates(ranked, scoreThreshold, scoreDifference) && llmMatcher.Some? ==>
                r == LlmMatching.SelectBestMatch(track, Bare(Items(ranked)[..LlmMatching.ShortlistSize(|ranked|)]),
                                                 reply, decode)
      // whatever is chosen was among the candidates
      ensures r.Ok? && r.value.Match? ==> r.value.candidate in Items(ranked)
    {
      if ranked == [] then Ok(NoMatch)
      else if Escalates(ranked, scoreThreshold, scoreDifference) && llmMatcher.Some? then
        var top := Items(ranked)[..LlmMatching.ShortlistSize(|ranked|)];
        var r := LlmMatching.SelectBestMatch(track, Bare(top), reply, decode);
        assert r.Ok? && r.value.Match? ==> r.value.candidate in top;
        r
      else Ok(Match(ranked[0].item))
    }
  }

  ghost predicate AllInPercentRange(s: seq<Scored<Candidate>>) {
    forall i :: 0 <= i < |s| ==> InPercentRange(s[i].score)
  }

  /** A bound on every score survives the sort. */
  lemma RankedInRange(s: seq<Scored<Candidate>>)
    requires AllInPercentRange(s)
    ensures AllInPercentRange(SortDesc(s))
  {
    SortDescPermutation(s);
    forall j | 0 <= j < |SortDesc(s)| ensures InPercentRange(SortDesc(s)[j].score) {
      assert SortDesc(s)[j] in multiset(s);
    }
  }

  /** On a ranked list, a top score at or above the threshold that leads the
      runner-up by at least the difference accepts the top candidate without
      consulting the model; a lower top score, or a smaller lead, hands the
      choice to the model whenever one is set. */
  lemma ClearWinnerIff(m: FuzzyMatcher, track: SpotifyTrack, ranked: seq<Scored<Candidate>>,
                       reply: LlmReply, decode: string -> JsonDoc)
    requires ranked != [] && m.llmMatcher.Some?
    ensures !Escalates(ranked, m.scoreThreshold, m.scoreDifference) <==>
              ranked[0].score >= m.scoreThreshold
              && (|ranked| == 1 || ranked[0].score - ranked[1].score >= m.scoreDifference)
    ensures !Escalates(ranked, m.scoreThreshold, m.scoreDifference) ==>
              m.SelectBestMatch(track, ranked, reply, decode) == Ok(Match(ranked[0].item))
  {
  }
}
