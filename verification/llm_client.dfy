/**
 * The decision logic of the language-model client: what `generate_query`
 * and `judge_candidates` return for a given reply. The model call itself
 * is an input (`LlmReply`), and so is the JSON decoder (`decode`).
 */
module LlmClient {
  import opened Wrappers
  import opened Text
  import opened Tracks
  import opened TextProcessing

  /** The `(response, success)` pair of one model call. */
  datatype LlmReply = Failed | Succeeded(response: string)

  /** The value of the `index` key of a decoded reply, by what indexing a
      Python list with it does: an int indexes, a bool indexes as 0 or 1,
      and anything else (float, string, null, list, object) raises TypeError. */
  datatype JsonValue = JInt(i: int) | JBool(b: bool) | JOther

  /** What `json.loads` makes of the reply: a decoding error, a value that
      has no `.get` (list, string, number, null), or an object with or
      without an `index` key. */
  datatype JsonDoc = NotJson | NonObject | Object(index: Option<JsonValue>)

  /** The configuration of a client; it does not influence any decision below. */
  datatype Client = Client(model: string, temperature: real, contextSize: int)

  /** A reply that `if success and response:` accepts. */
  predicate Usable(reply: LlmReply) {
    reply.Succeeded? && reply.response != ""
  }

  // ---------------------------------------------------------------------
  // generate_query

  predicate IsQuote(c: char) { c == '"' }

  /** `response.strip().strip('"')`. */
  function CleanReply(response: string): (q: string)
    ensures q == [] || (q[0] != '"' && q[|q| - 1] != '"')
    ensures Contains(response, q)
    // only white space, then only '"', is cut from either end
    ensures CutFromEnds(Strip(response), q, IsQuote)
  {
    CleanReplyInside(response);
    TrimBothCuts(Strip(response), IsQuote);
    TrimRight(TrimLeft(Strip(response), IsQuote), IsQuote)
  }

  /** A piece of a piece of the reply occurs in the reply. */
  lemma CleanReplyInside(response: string)
    ensures Contains(response, TrimRight(TrimLeft(Strip(response), IsQuote), IsQuote))
  {
    var m := Strip(response);
    var q := TrimRight(TrimLeft(m, IsQuote), IsQuote);
    TrimBothCuts(m, IsQuote);
    var i: nat :| CutAt(response, m, IsSpace, i);
    var j: nat :| CutAt(m, q, IsQuote, j);
    CutAtChars(response, m, IsSpace, i);
    CutAtChars(m, q, IsQuote, j);
    NestedPieces(response, m, q, i, j);
  }

  /** A piece of a piece of `x` is a piece of `x`. */
  lemma NestedPieces(x: string, m: string, q: string, i: nat, j: nat)
    requires i + |m| <= |x| && forall k :: 0 <= k < |m| ==> m[k] == x[i + k]
    requires j + |q| <= |m| && forall k :: 0 <= k < |q| ==> q[k] == m[j + k]
    ensures Contains(x, q)
  {
    forall k | 0 <= k < |q| ensures q[k] == x[i + j + k] {
      assert q[k] == m[j + k];
    }
    ContainsSliceAt(x, i + j, q);
  }

  /** A piece that equals `s[i..i + |q|]` occurs in `s`. */
  lemma ContainsSliceAt(s: string, i: nat, q: string)
    requires i + |q| <= |s| && forall k :: 0 <= k < |q| ==> q[k] == s[i + k]
    ensures Contains(s, q)
  {
    assert q == s[i..i + |q|];
    ContainsSlice(s, i, i + |q|);
  }

  /** `s[i..j]` occurs in `s`. */
  lemma {:induction false} ContainsSlice(s: string, i: nat, j: nat)
    requires i <= j <= |s|
    ensures Contains(s, s[i..j])
    decreases i
  {
    if i == 0 {
      assert s[..j - i] == s[i..j];
    } else {
      assert s[1..][i - 1..j - 1] == s[i..j];
      ContainsSlice(s[1..], i - 1, j - 1);
    }
  }

  /** `generate_query`: the cleaned reply when the call succeeded with a
      non-empty response, the heuristic query otherwise. */
  function GenerateQuery(track: SpotifyTrack, reply: LlmReply): (q: string)
    ensures Usable(reply) ==> q == CleanReply(reply.response)
    ensures !Usable(reply) ==> q == FallbackSearchQuery(track) && Collapsed(q)
  {
    if Usable(reply) then CleanReply(reply.response) else FallbackSearchQuery(track)
  }

  /** The reply `"\"\""` (two quote characters) succeeds and still yields
      the empty query: the fallback is not consulted. */
  lemma QuotedEmptyReply(track: SpotifyTrack)
    ensures GenerateQuery(track, Succeeded("\"\"")) == ""
  {
    var r := "\"\"";
    assert !IsSpace(r[0]) && !IsSpace(r[1]);
    StripNoSpaceEnds(r);
    assert TrimLeft(r[1..], IsQuote) == [];
    assert TrimLeft(r, IsQuote) == [];
  }

  // ---------------------------------------------------------------------
  // judge_candidates

  /** `candidates[0]`, raising IndexError on an empty list. */
  function First(cands: seq<Candidate>): (r: Result<Candidate>)
    ensures cands == [] <==> r == Raised(IndexError)
    ensures cands != [] ==> r == Ok(cands[0])
  {
    if cands == [] then Raised(IndexError) else Ok(cands[0])
  }

  /** `candidates[index]` inside `try`, with IndexError answered by
      `candidates[0]`: Python counts a negative index from the end. */
  function PickOrFirst(cands: seq<Candidate>, index: int): (r: Result<Candidate>)
    ensures 0 <= index < |cands| ==> r == Ok(cands[index])
    ensures -|cands| <= index < 0 ==> r == Ok(cands[|cands| + index])
    ensures !(-|cands| <= index < |cands|) ==> r == First(cands)
  {
    var n := |cands|;
    if 0 <= index < n then Ok(cands[index])
    else if -n <= index < 0 then Ok(cands[n + index])
    else First(cands)
  }

  /** `judge_candidates`. The prompt reads `spotify_track['artists'][0]`
      before the model is called; the reply is then decoded, and only
      decoding errors, KeyError and IndexError are answered with
      `candidates[0]`. */
  function JudgeCandidates(track: SpotifyTrack, cands: seq<Candidate>,
                           reply: LlmReply, decode: string -> JsonDoc): (r: Result<Candidate>)
    // the choice is always one of the candidates
    ensures r.Ok? ==> r.value in cands
    // failed, empty or undecodable replies fall back to the first candidate
    ensures (track.artists != [] && cands != []
             && (!Usable(reply) || decode(reply.response).NotJson?)) ==> r == Ok(cands[0])
    // a valid index selects; a missing one counts as 0
    ensures (track.artists != [] && Usable(reply)
             && decode(reply.response) == Object(None)) ==> r == First(cands)
    ensures (track.artists != [] && Usable(reply) && decode(reply.response).Object?
             && decode(reply.response).index.Some? && decode(reply.response).index.value.JInt?)
            ==> r == PickOrFirst(cands, decode(reply.response).index.value.i)
    // `true` and `false` index as 1 and 0
    ensures (track.artists != [] && Usable(reply) && decode(reply.response).Object?
             && decode(reply.response).index.Some? && decode(reply.response).index.value.JBool?)
            ==> r == PickOrFirst(cands, if decode(reply.response).index.value.b then 1 else 0)
    // exactly these inputs raise
    ensures r.Raised? <==>
              track.artists == [] || cands == []
              || (Usable(reply) && (decode(reply.response).NonObject?
                                    || decode(reply.response) == Object(Some(JOther))))
  {
    if track.artists == [] then Raised(IndexError)
    else if !Usable(reply) then First(cands)
    else
      match decode(reply.response)
      case NotJson => First(cands)
      case NonObject => Raised(AttributeError)
      case Object(index) =>
        match index.GetOr(JInt(0))
        case JInt(i) => PickOrFirst(cands, i)
        case JBool(b) => PickOrFirst(cands, if b then 1 else 0)
        case JOther => Raised(TypeError)
  }
}
