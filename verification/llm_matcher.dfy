/**
 * `LLMMatcher`: placeholder scoring, and the hand-off of at most three
 * candidates to the client's judgement.
 */
module LlmMatching {
  import opened Wrappers
  import opened Tracks
  import opened Ranking
  import opened LlmClient

  /** The matcher holds a client and nothing else that influences a decision. */
  datatype LlmMatcher = LlmMatcher(client: Client)

  /** What `select_best_match` returns: `{}` or one candidate. */
  datatype Selection = NoMatch | Match(candidate: Candidate)

  /** The argument of `select_best_match`: `(score, track)` tuples or bare
      tracks, told apart by the type of the first element. `None` is
      modelled as an empty list. */
  datatype Shortlist = Pairs(pairs: seq<Scored<Candidate>>) | Bare(tracks: seq<Candidate>)

  /** The tracks of a ranked list, without their scores, in order. */
  function Items(s: seq<Scored<Candidate>>): (r: seq<Candidate>)
    ensures |r| == |s|
    ensures forall i :: 0 <= i < |s| ==> r[i] == s[i].item
  {
    seq(|s|, i requires 0 <= i < |s| => s[i].item)
  }

  /** `score_candidates`: the i-th track scores `100 - i`. */
  function PlaceholderScores(results: seq<Candidate>): (r: seq<Scored<Candidate>>)
    ensures Items(r) == results
    ensures forall i, j :: 0 <= i < j < |r| ==> r[i].score > r[j].score
    ensures r != [] ==> r[0].score == 100.0
    ensures forall i :: 0 < i < |r| ==> r[i].score == r[i - 1].score - 1.0
  {
    seq(|results|, i requires 0 <= i < |results| => Scored(100.0 - i as real, results[i]))
  }

  /** The placeholder scores are already in ranked order: sorting them as
      the other matcher does changes nothing. */
  lemma PlaceholderScoresRanked(results: seq<Candidate>)
    ensures SortDesc(PlaceholderScores(results)) == PlaceholderScores(results)
  {
    var r := PlaceholderScores(results);
    StableSortUnique(r, r);
  }

  /** The first (up to) three tracks of the argument, in order. */
  function Shortlisted(input: Shortlist): (c: seq<Candidate>)
    ensures input.Pairs? ==> c == Items(input.pairs)[..ShortlistSize(|input.pairs|)]
    ensures input.Bare? ==> c == input.tracks[..ShortlistSize(|input.tracks|)]
  {
    match input
    case Pairs(ps) => Items(ps[..ShortlistSize(|ps|)])
    case Bare(ts) => ts[..ShortlistSize(|ts|)]
  }

  function ShortlistSize(n: nat): nat { if n < 3 then n else 3 }

  /** `select_best_match`: `{}` without consulting the model when there is
      nothing to choose from, otherwise exactly the judgement on at most
      three candidates. */
  function SelectBestMatch(track: SpotifyTrack, input: Shortlist,
                           reply: LlmReply, decode: string -> JsonDoc): (r: Result<Selection>)
    ensures Shortlisted(input) == [] ==> r == Ok(NoMatch)
    ensures Shortlisted(input) != [] ==>
              match JudgeCandidates(track, Shortlisted(input), reply, decode)
              case Ok(c) => r == Ok(Match(c))
              case Raised(e) => r == Raised(e)
    ensures r.Ok? && r.value.Match? ==> r.value.candidate in Shortlisted(input)
  {
    var candidates := Shortlisted(input);
    if candidates == [] then Ok(NoMatch)
    else
      match JudgeCandidates(track, candidates, reply, decode)
      case Ok(c) => Ok(Match(c))
      case Raised(e) => Raised(e)
  }

  /** Both argument shapes give the same decision when they hold the same
      tracks, and only the first three tracks matter. */
  lemma SelectionIgnoresScores(track: SpotifyTrack, ranked: seq<Scored<Candidate>>,
                               reply: LlmReply, decode: string -> JsonDoc)
    ensures SelectBestMatch(track, Pairs(ranked), reply, decode)
         == SelectBestMatch(track, Bare(Items(ranked)), reply, decode)
    ensures SelectBestMatch(track, Bare(Items(ranked)), reply, decode)
         == SelectBestMatch(track, Bare(Items(ranked)[..ShortlistSize(|ranked|)]), reply, decode)
  {
    var n := ShortlistSize(|ranked|);
    assert Items(ranked[..n]) == Items(ranked)[..n];
    assert Items(ranked)[..n][..ShortlistSize(n)] == Items(ranked)[..n];
  }

  /** A well-behaved reply never raises on a non-empty list: a model
      failure, an undecodable reply or an out-of-range index all end at the
      first candidate. */
  lemma NonEmptyShortlistTotal(track: SpotifyTrack, input: Shortlist,
                               reply: LlmReply, decode: string -> JsonDoc)
    requires track.artists != [] && Shortlisted(input) != []
    requires Usable(reply) ==> decode(reply.response).NotJson?
                               || (decode(reply.response).Object?
                                   && decode(reply.response).index != Some(JOther))
    ensures SelectBestMatch(track, input, reply, decode).Ok?
    ensures SelectBestMatch(track, input, reply, decode).value.Match?
  {
  }
}
