# RKADE-sync track matching, modelled in Dafny

RKADE-sync copies a music library from Spotify to YouTube Music. For every
Spotify track it searches YouTube Music. It scores the search results
against the track and ranks them. Then it either accepts the top result or
asks a language model to choose among the top three. A failed or malformed
reply from the model falls back to a fixed default. Around this engine sit
small helpers:

- a notebook script with duration parsing and formatting, file-name
  sanitising, de-duplication of tracks, a parser for "Candidate N: score"
  replies, and the fallback and quality scores;
- two "artist - title" splitters;
- a Levenshtein arg-min matcher that annotates its search results in place.

The project models these pieces and proves what they promise. The modules
follow the repository's files:

| module | file | content |
|---|---|---|
| `Wrappers` | — | `Option`, `Result` and the Python exceptions the core can raise |
| `Text` | — | the parts of Python's `str` the core uses: `lower`, `strip`, `split`, `in`, `int()`, `float()` |
| `Tracks` | — | a Spotify track and a YouTube Music search result |
| `Ranking` | — | `list.sort(reverse=True, key=score)`: a stable descending insertion sort |
| `TextProcessing` | utils/text_processing.py | `preprocess_text`, `safe_get`, the fallback search query |
| `LlmClient` | clients/llm_client.py | the decisions of `generate_query` and `judge_candidates` |
| `LlmMatching` | matchers/llm_matcher.py | `LLMMatcher` |
| `FuzzyMatching` | matchers/fuzzy_matcher.py, config.py | `FuzzyMatcher` as a class, with its scoring loop and escalation rule |
| `Notebook` | music_to_spotify.py | the pure and imperative helpers listed above |
| `TitleSplit` | rkade_sync/helpers/utils.py | `get_song_title_artist`, with the search semantics of its two regular expressions |
| `YouTubeMatch` | rkade_sync/youtube.py | `find_best_match` over mutable result objects |
| `Playlists` | rkade_sync/playlist_manager.py | `extract_song_info`, the keep-original test, `standardize_playlist` |

Some inputs come from outside the core, so they are parameters of the model:

- The library functions `fuzz.token_sort_ratio` and `jaro_winkler` are
  function-valued parameters (a `Similarity`). Their ranges are subset
  types: an integer in 0..100 and a real in [0, 1].
- The language model's reply is an `LlmReply`: `Failed` or
  `Succeeded(response)`.
- `json.loads` is a parameter `decode` that maps the reply text to a
  `JsonDoc`: `NotJson`, `NonObject`, or `Object(index)`.
- Levenshtein distance is defined directly as the edit distance.
- Scores are `real`.

A Python exception becomes `Raised(e)` in a `Result`.

## Model

| member | source | states |
|---|---|---|
| `TextProcessing.Preprocess` | utils/text_processing.py:7-18 | empty text gives ""; every output character is a lower-case ASCII letter or digit |
| `TextProcessing.PreprocessIdempotent` | utils/text_processing.py:16-18 | normalising a normalised text changes nothing |
| `TextProcessing.PreprocessAscii` | utils/text_processing.py:18 | on ASCII text the result equals an independent definition: lower-case each character and drop every non-alphanumeric one, order kept |
| `TextProcessing.PreprocessedIsOneToken` | utils/text_processing.py:18 | a normalised title holds no white space, so it is one token or none, and the token sort ratio of two titles cannot reorder words |
| `TextProcessing.FollowAppend` | utils/text_processing.py:33-39 | following a key path in two pieces is following the first piece and then the second from where it stopped; a missing key stops the walk |
| `TextProcessing.SafeGet` | utils/text_processing.py:21-39 | an empty key list returns the document itself; otherwise the value at the end of the path, or the default at the first missing key or non-dictionary value |
| `TextProcessing.QueryParts` | utils/text_processing.py:51-61 | the parts are, in order: the name; the first artist if there is one; "feat. " and the other artists joined by ", " only with two or more artists; the album exactly when its lower case holds a version keyword |
| `TextProcessing.CollectQueryParts` | utils/text_processing.py:51-61 | appending the parts one by one builds exactly that list |
| `TextProcessing.CollapseWhitespace` | utils/text_processing.py:63 | the result has no white space at either end, and every white space in it is a single ' ' followed by a non-space |
| `TextProcessing.CollapseIsJoinedWords` | utils/text_processing.py:63 | the collapsed text is the text's words joined by single spaces |
| `TextProcessing.SquashStripIsJoinedWords` | utils/text_processing.py:63 | replacing runs of white space with one space and then stripping gives the words joined by single spaces |
| `TextProcessing.FallbackSearchQuery` | utils/text_processing.py:42-63 | the fallback query is collapsed: no white space at either end, no run of white space longer than one space |
| `TextProcessing.FallbackQueryWords` | utils/text_processing.py:42-63 | the fallback query is the words of the space-joined parts, joined by single spaces |
| `Ranking.SortDescSorted` | matchers/fuzzy_matcher.py:109 | the sorted list has non-increasing scores |
| `Ranking.SortDescPermutation` | matchers/fuzzy_matcher.py:109 | the sorted list is a permutation of its input |
| `Ranking.SortDescStable` | matchers/fuzzy_matcher.py:109 | for every score, the entries with that score keep their input order |
| `Ranking.SortDescRanks` | matchers/fuzzy_matcher.py:109 | the sort is a stable ranking: sorted, a permutation and order-preserving among equal scores |
| `Ranking.StableSortUnique` | matchers/fuzzy_matcher.py:109 | any descending list with the same entries per score as the input is the sort's result, so a stable sort has one outcome |
| `Ranking.SortedSameGroupsEqual` | music_to_spotify.py:261 | two descending lists with the same entries per score are equal |
| `LlmClient.CleanReply` | clients/llm_client.py:95 | the query is the reply with white space cut from both ends and then '"' cut from both ends, no more and no less: neither end of the query is '"', and it is a substring of the reply |
| `Text.Strip` | clients/llm_client.py:95 | `strip()` cuts white space, and only white space, from each end, and leaves none at either end |
| `Text.ParseFloatDigits` | music_to_spotify.py:245 | `float()` of a non-empty run of digits is its decimal value |
| `Text.ParseFloatFraction` | music_to_spotify.py:245 | `float("a.f")` for digit runs a and f, not both empty, is a + f / 10^\|f\| |
| `LlmClient.GenerateQuery` | clients/llm_client.py:94-100 | a successful non-empty reply gives the cleaned reply; a failed or empty one gives the fallback query, which is collapsed |
| `LlmClient.QuotedEmptyReply` | clients/llm_client.py:94-97 | the reply `""` gives the empty query, not the fallback |
| `LlmClient.First` | clients/llm_client.py:175-178 | the first candidate, or IndexError exactly when there is none |
| `LlmClient.PickOrFirst` | clients/llm_client.py:172-175 | an index in [0, n) picks that candidate; one in [-n, -1] picks candidate n+index; any other falls back to the first |
| `LlmClient.JudgeCandidates` | clients/llm_client.py:164-178 | any chosen candidate is one of the candidates; a failed, empty or non-JSON reply gives the first; a missing index gives the first; an integer index is picked as above, and `true` and `false` pick as 1 and 0; it raises exactly when the track has no artists, there are no candidates, or the reply parses to a non-object or to a non-integer index |
| `LlmMatching.PlaceholderScores` | matchers/llm_matcher.py:37 | one entry per input in input order; the first scored 100, each next one exactly 1 lower, so the scores strictly decrease |
| `LlmMatching.PlaceholderScoresRanked` | matchers/llm_matcher.py:37 | the placeholder list is already ranked: sorting it changes nothing |
| `LlmMatching.Shortlisted` | matchers/llm_matcher.py:53-58 | the candidates are the first three tracks, in order, whether given with scores or bare |
| `LlmMatching.SelectBestMatch` | matchers/llm_matcher.py:40-66 | no candidates gives `{}` without a judgement; otherwise exactly the judgement on the shortlist, and a match is one of the shortlisted |
| `LlmMatching.SelectionIgnoresScores` | matchers/llm_matcher.py:53-58 | the choice is the same for scored and bare input, and for the input and its first three entries |
| `LlmMatching.NonEmptyShortlistTotal` | matchers/llm_matcher.py:60-66 | with candidates, artists and a reply that is not a bad JSON shape, selection always yields a match |
| `FuzzyMatching.DurationScore` | matchers/fuzzy_matcher.py:67 | the duration score lies in [0, 100]; it is 100 exactly when the whole-second durations agree and 0 exactly when they differ by 100 s or more |
| `FuzzyMatching.CandidateTitle` | matchers/fuzzy_matcher.py:77 | a result without a title is compared as "" |
| `FuzzyMatching.CandidateArtist` | matchers/fuzzy_matcher.py:78-82 | a result without artists is compared against "" rather than failing |
| `FuzzyMatching.CandidateSignals` | matchers/fuzzy_matcher.py:76-87 | each of the three signals lies in [0, 100] |
| `FuzzyMatching.Weighted` | matchers/fuzzy_matcher.py:89-93 | with non-negative weights summing to 1 the total lies between the smallest and the largest of the three signals |
| `FuzzyMatching.WeightedBounds` | matchers/fuzzy_matcher.py:89-93 | with non-negative weights summing to 1 and signals in [0, 100], the total lies in [0, 100] |
| `FuzzyMatching.DefaultWeightsConvex` | config.py:8-14 | the default weights 0.5, 0.3 and 0.2 are non-negative and sum to 1 |
| `FuzzyMatching.FuzzyMatcher.constructor` | matchers/fuzzy_matcher.py:16-43 | the matcher holds the given weights, thresholds and model matcher |
| `FuzzyMatching.FuzzyMatcher.SetLlmMatcher` | matchers/fuzzy_matcher.py:45-51 | the model matcher is replaced and nothing else changes |
| `FuzzyMatching.FuzzyMatcher.Unranked` | matchers/fuzzy_matcher.py:75-97 | one (total score, result) pair per result, in input order |
| `FuzzyMatching.FuzzyMatcher.ScoreCandidates` | matchers/fuzzy_matcher.py:53-115 | a track without artists raises IndexError, and only then; otherwise the result is the stable descending ranking of one pair per result, every score in [0, 100] when the weights are convex |
| `FuzzyMatching.FuzzyMatcher.RankedScores` | matchers/fuzzy_matcher.py:85-109 | the sorted pairs form a stable ranking of the unsorted ones, and convex weights keep every score in [0, 100] |
| `FuzzyMatching.FuzzyMatcher.ScoresInRange` | matchers/fuzzy_matcher.py:85-93 | with convex weights every total lies in [0, 100] |
| `FuzzyMatching.RankedInRange` | matchers/fuzzy_matcher.py:109 | a bound on every score survives the sort |
| `FuzzyMatching.FuzzyMatcher.SelectBestMatch` | matchers/fuzzy_matcher.py:117-155 | an empty list gives `{}` without asking the model; if the rule does not escalate, or no model matcher is set, the top result; otherwise exactly the model matcher's choice among the first min(3, n) results without scores; a match is always one of the results |
| `FuzzyMatching.Escalates` | matchers/fuzzy_matcher.py:136-142 | an empty list never escalates, and only the two best scores decide whether a longer list does |
| `FuzzyMatching.ClearWinnerIff` | matchers/fuzzy_matcher.py:136-155 | the rule does not escalate if and only if the top score reaches the threshold and leads the runner-up, if any, by at least the difference; then the top result is taken |
| `Notebook.SafeFilename` | music_to_spotify.py:132-134 | the kept characters with white space cut from both ends: only ASCII letters, digits, ' ', '-', '_' and '.' remain, with no space at either end |
| `Notebook.KeepFilenameCharsAppend` | music_to_spotify.py:134 | the filter works character by character, in order: the kept characters of a concatenation are those of its parts, one after the other |
| `Notebook.KeepFilenameCharsOne` | music_to_spotify.py:134 | one character is kept exactly when it is an ASCII letter or digit, ' ', '-', '_' or '.' |
| `Notebook.KeepFilenameCharsOfSafe` | music_to_spotify.py:134 | the character filter leaves text of allowed characters unchanged |
| `Notebook.SafeFilenameIdempotent` | music_to_spotify.py:132-134 | sanitising a sanitised name changes nothing |
| `Notebook.FormatDuration` | music_to_spotify.py:136-141 | the text ends in ':' and two digits that read back as the seconds within the minute |
| `Notebook.ParseDuration` | music_to_spotify.py:550-565 | "" gives 0; text without ':' gives the integer `int()` reads from it, or 0 when `int()` rejects it; two or three parts of which `int()` rejects one give 0; four or more parts give 0 |
| `Notebook.ColonRejected` | music_to_spotify.py:563 | `int()` rejects any text with a ':', so the whole-text fallback gives 0 for four or more parts |
| `Notebook.ParseTwoParts` | music_to_spotify.py:557-559 | "M:S" with two integer parts gives 60·M + S |
| `Notebook.ParseThreeParts` | music_to_spotify.py:560-561 | "H:M:S" with three integer parts gives 3600·H + 60·M + S |
| `Notebook.DurationRoundTrip` | music_to_spotify.py:136-141 | parsing a formatted duration gives back its whole seconds |
| `Notebook.MinutesSecondsRoundTrip` | music_to_spotify.py:136-141 | minutes, ':' and the two-digit remainder parse back to the whole seconds, negative counts included |
| `Notebook.ParseFormattedMinutes` | music_to_spotify.py:557-559 | any minute count, ':' and two seconds digits parse as 60·M + S |
| `Notebook.ParseMinutesSeconds` | music_to_spotify.py:550-565 | the digits of M and S joined by ':' parse to 60·M + S |
| `Notebook.ParseHoursMinutesSeconds` | music_to_spotify.py:550-565 | the digits of H, M and S joined by ':' parse to 3600·H + 60·M + S |
| `Notebook.RedundantIndicators` | music_to_spotify.py:567-593 | the last two indicators change nothing: the test with all seven equals the test with the first five |
| `Notebook.IsOfficialUpload` | music_to_spotify.py:567-593 | official exactly when the lower-case artist is non-empty and inside the lower-case channel name, or one of the first five indicators is inside the lower-case title or channel name; "official video" and "official audio" never decide |
| `Notebook.TopicChannelOfficial` | music_to_spotify.py:567-593 | a channel named "… - Topic" always counts as official |
| `Notebook.TitleBonus` | music_to_spotify.py:268-275 | the title bonus is 0, 0.2 or 0.4 |
| `Notebook.ArtistBonus` | music_to_spotify.py:277-282 | the artist bonus is 0 or 0.3 |
| `Notebook.CloseDurationBonus` | music_to_spotify.py:284-291 | the duration bonus is 0, 0.1 or 0.2, and 0 when the reference duration is not positive |
| `Notebook.OfficialBonus` | music_to_spotify.py:293-295 | the official bonus is 0 or 0.1 |
| `Notebook.FallbackSimilarity` | music_to_spotify.py:264-297 | the fallback similarity lies in [0, 1] |
| `Notebook.FallbackSimilarityUncapped` | music_to_spotify.py:264-297 | the bonuses never exceed 1, so the cap never applies; the score is 1 exactly when every bonus takes its largest value |
| `Notebook.FallbackScore` | music_to_spotify.py:264-297 | accumulating the bonuses step by step gives the fallback similarity, in [0, 1] |
| `Notebook.OfficialTier` | music_to_spotify.py:600-606 | 0 exactly for a non-official upload; otherwise one of the three official weights |
| `Notebook.TopicBonus` | music_to_spotify.py:609-610 | 0 or the topic weight |
| `Notebook.QualityDurationBonus` | music_to_spotify.py:612-619 | 50 exactly when the reference is positive and the gap is at most 5 s; 25 exactly when the gap is 6 to 15 s; 0 otherwise |
| `Notebook.ViewsBonus` | music_to_spotify.py:621-629 | 0, the views weight or half of it; 0 when the view count does not parse |
| `Notebook.QualityScore` | music_to_spotify.py:595-640 | the quality score lies in [0, 310] |
| `Notebook.OfficialOutranks` | music_to_spotify.py:600-606 | being official adds at least 80 to the quality score, all else equal |
| `Notebook.CalculateQualityScore` | music_to_spotify.py:595-640 | accumulating the bonuses step by step gives the quality score, in [0, 310] |
| `Notebook.DeduplicatedKeys` | music_to_spotify.py:861-875 | the kept tracks have the same set of signatures as the input |
| `Notebook.DeduplicatedIsFirstOccurrences` | music_to_spotify.py:861-875 | the loop keeps exactly the first track of each signature, in input order |
| `Notebook.DeduplicatedDistinct` | music_to_spotify.py:861-875 | no two kept tracks share a signature |
| `Notebook.DeduplicateTracks` | music_to_spotify.py:861-875 | the result is the subsequence of first occurrences per signature; it has every input signature, each once |
| `Notebook.NonBlankStripped` | music_to_spotify.py:236 | the stripped lines are all non-empty |
| `Notebook.NonBlankStrippedAppend` | music_to_spotify.py:236 | the filter over two runs of lines is the filter over the first followed by the filter over the second, so line order is kept |
| `Notebook.NonBlankStrippedOne` | music_to_spotify.py:236 | one line gives its stripped text when that is not blank and nothing otherwise; with the previous row this fixes the result on every input |
| `Notebook.ParseLine` | music_to_spotify.py:239-251 | a parsed line starts with "Candidate" and names a candidate number within the list |
| `Notebook.ParseLineScored` | music_to_spotify.py:239-251 | the line the prompt at music_to_spotify.py:225-226 asks for, "Candidate N: a.f reason" with digit runs a and f and a reason without ':', parses to (N - 1, a + f / 10^\|f\|) when 1 <= N <= the number of candidates, and to nothing otherwise |
| `Notebook.ParseLineWellFormed` | music_to_spotify.py:239-251 | the line "Candidate N: S" with whole numbers N and S parses to (N - 1, S) when 1 <= N <= the number of candidates, and to nothing otherwise |
| `Notebook.ParsedScores` | music_to_spotify.py:238-251 | every parsed pair names one of the candidates |
| `Notebook.ScoresNameCandidates` | music_to_spotify.py:238-258 | every pair of the unsorted list, parsed or fallback, names one of the candidates |
| `Notebook.FallbackScores` | music_to_spotify.py:254-258 | one pair per candidate, in order, each score in [0, 1] |
| `Notebook.ParseReply` | music_to_spotify.py:238-251 | the parsing loop builds exactly the parsed pairs |
| `Notebook.ScoreAllByFallback` | music_to_spotify.py:254-258 | the fallback loop builds exactly the fallback pairs |
| `Notebook.AnalyzeSimilarity` | music_to_spotify.py:234-262 | the result is a stable descending ranking of the parsed pairs, or of the fallback pairs when nothing parses; every entry is a candidate; in the fallback case there is one per candidate, each scored in [0, 1] |
| `Notebook.CandidateRanking` | music_to_spotify.py:261 | sorting keeps every entry a candidate and is a stable ranking |
| `Notebook.FallbackRanking` | music_to_spotify.py:253-261 | the sorted fallback list has one entry per candidate, each scored in [0, 1] |
| `TitleSplit.FirstWhere` | rkade_sync/helpers/utils.py:20 | the leftmost position in range where the test holds, or none exactly when it holds nowhere in range |
| `TitleSplit.SkipSpace` | rkade_sync/helpers/utils.py:20 | the greedy `\s*`: the end of the white-space run starting at the position |
| `TitleSplit.LineEnd` | rkade_sync/helpers/utils.py:20 | the greedy `.*`: the first newline at or after the position, or the end |
| `TitleSplit.HyphenSearch` | rkade_sync/helpers/utils.py:20 | `re.search`: the match of the hyphen pattern at the leftmost start position where it matches, or none when it matches at no position |
| `TitleSplit.ParenSearch` | rkade_sync/helpers/utils.py:23 | `re.search`: the match of the parenthesis pattern at the leftmost start position where it matches, or none when it matches at no position |
| `TitleSplit.GetSongTitleArtist` | rkade_sync/helpers/utils.py:8-26 | the hyphen pattern's match if it has one; otherwise the parenthesis pattern's match; otherwise the text as title with an empty artist |
| `TitleSplit.FirstWhereIs` | rkade_sync/helpers/utils.py:20 | the search finds x when x is the first position where the test holds |
| `TitleSplit.HyphenForm` | rkade_sync/helpers/utils.py:20-22 | on a single line with a '-', the artist is the text before the first '-' without trailing white space, and the title the rest without leading white space |
| `TitleSplit.NoHyphenNoMatch` | rkade_sync/helpers/utils.py:20 | text without '-' never matches the hyphen pattern |
| `TitleSplit.ParenForm` | rkade_sync/helpers/utils.py:23-25 | on a single line without '-' but with a '(' and a later ')', the title is the text before the first '(' without trailing white space and the artist the stripped text up to the next ')' |
| `TitleSplit.NoMatchForm` | rkade_sync/helpers/utils.py:26 | text with no '-' and no ')' after a '(' gives the text as title with an empty artist |
| `YouTubeMatch.LevSelf` | rkade_sync/youtube.py:115 | a string is at edit distance 0 from itself |
| `YouTubeMatch.LevZero` | rkade_sync/youtube.py:115 | edit distance 0 means equal strings |
| `YouTubeMatch.LevSymmetric` | rkade_sync/youtube.py:115 | the edit distance is symmetric |
| `YouTubeMatch.SearchResult.constructor` | rkade_sync/youtube.py:79 | a result holds its title, duration and artists, and carries no annotation yet |
| `YouTubeMatch.AllNames` | rkade_sync/youtube.py:94 | the names of all artists, in order |
| `YouTubeMatch.IdentifiedNames` | rkade_sync/youtube.py:106-110 | exactly the names of artists that have an id, and no more names than artists |
| `YouTubeMatch.IdentifiedNamesAppend` | rkade_sync/youtube.py:106-110 | the filter keeps list order: the names of a concatenation are those of its parts, one after the other |
| `YouTubeMatch.IdentifiedNamesFirst` | rkade_sync/youtube.py:106-110 | the first name kept is that of the first artist with an id |
| `YouTubeMatch.SongArtist` | rkade_sync/youtube.py:103-112 | the identified names exactly when there are any; the reference artist when the key is missing or no artist is identified |
| `YouTubeMatch.SongArtistFirst` | rkade_sync/youtube.py:103-116 | the artist compared in song mode is the first artist of the result that has an id |
| `YouTubeMatch.Distances` | rkade_sync/youtube.py:114-124 | one distance per result, in order |
| `YouTubeMatch.DistanceNonNegative` | rkade_sync/youtube.py:114-124 | every distance is non-negative |
| `YouTubeMatch.FirstArgMin` | rkade_sync/youtube.py:126-128 | an index of a least distance that is strictly less than every earlier one, so the first minimum |
| `YouTubeMatch.FirstArgMinStep` | rkade_sync/youtube.py:126-128 | extending the list by one moves the first minimum to the new entry exactly when it is strictly smaller |
| `YouTubeMatch.AnnotateSong` | rkade_sync/youtube.py:98-112 | the result gets its song-mode duration and artist |
| `YouTubeMatch.ScoreResult` | rkade_sync/youtube.py:97-124 | annotates in song mode only; raises Exception in song mode and ZeroDivisionError in video mode when a length is 0; otherwise the result's distance |
| `YouTubeMatch.ScoreAt` | rkade_sync/youtube.py:97-124 | one iteration changes only the result it scores; in song mode every result up to it is annotated; its outcome is that result's distance or the mode's error |
| `YouTubeMatch.ScanResults` | rkade_sync/youtube.py:95-130 | the loop returns the first result of least distance, or the error of the first result; in song mode every visited result is annotated; in video mode nothing changes |
| `YouTubeMatch.FindBestMatch` | rkade_sync/youtube.py:74-130 | IndexError for no results and KeyError when the first lacks a key; otherwise an error exactly when a title or, in song mode, an artist is empty; the result is the first result of least distance; the annotations written are stated per case, and other results are untouched |
| `YouTubeMatch.ExactMatchWins` | rkade_sync/youtube.py:114-128 | an exact match in song mode has distance 0, and the chosen result comes no later and also has distance 0 |
| `YouTubeMatch.VideoChoiceClosest` | rkade_sync/youtube.py:124-128 | in video mode no result is at a smaller edit distance from the title than the chosen one |
| `Playlists.ExtractSongInfo` | rkade_sync/playlist_manager.py:15-22 | a title without '-' raises ValueError, and only then; the album always equals the song |
| `Playlists.SplitAtFirstHyphen` | rkade_sync/playlist_manager.py:16-22 | the split is at the first '-': the song is the stripped text after it, later hyphens included, and the artist the stripped text before it |
| `Playlists.ExtractFromJoined` | rkade_sync/playlist_manager.py:15-22 | "artist - song" with stripped parts and no '-' in the artist gives back the song and the artist |
| `Playlists.FilenameReadsBackSwapped` | rkade_sync/playlist_manager.py:72 | splitting a record's filename gives its title as the artist and its artist as the song |
| `Playlists.KeepOriginal` | rkade_sync/playlist_manager.py:58-64 | a title inside the video title keeps the video without dividing; otherwise a missing video duration raises KeyError, a zero duration ZeroDivisionError, and else the original is kept exactly when the durations differ by more than a fifth |
| `Playlists.RelativeGap` | rkade_sync/playlist_manager.py:60 | `abs((d - v) / d) > 0.2` holds exactly when 5·abs(d - v) > abs(d) |
| `Playlists.StandardizePlaylist` | rkade_sync/playlist_manager.py:24-75 | succeeds exactly when no entry fails, with the raw and clean directories and one record per entry; otherwise the error is that of the first failing entry |

## Left out

- Network, authentication, search calls, downloads, audio conversion, metadata tagging, the database, logging, concurrency and the command line are not part of this model.
- The language model's transport and prompt texts are left out. Its reply is an input (`LlmReply`), and so is the JSON decoding (`decode`).
- `fuzz.token_sort_ratio`, `jaro_winkler` and `Levenshtein.distance` are library code. The first two are parameters with their documented ranges. The edit distance is defined directly; the library's own implementation is not modelled.
- Python floats are modelled as exact reals. Where a score lands exactly on a threshold (85, 15, 0.2), rounding in IEEE arithmetic could decide differently.
- `Text.Lower` follows `str.lower()` for ASCII, Latin-1 and the two non-ASCII capitals whose lower case holds an ASCII letter. Other non-ASCII case mappings are not modelled. `isalnum` is ASCII only.
- `Text.ParseInt` and `Text.ParseFloat` accept ASCII digits, a sign and surrounding white space, and the float form also takes a fraction and an exponent. Underscores in numbers, non-ASCII digits, `inf` and `nan` are not modelled.
- Track records always have a name, an album and a duration. The KeyError raised for a missing `name`, `duration_ms` or album is not modelled, and neither is a `duration_seconds` present with the value None.
- `LlmMatching.SelectBestMatch`: a shortlist mixing tuples and bare tracks is not modelled, because the input is either all pairs or all bare tracks. A None list is modelled as the empty list.
- `TitleSplit.HyphenForm` and `TitleSplit.ParenForm` state their closed forms for single-line text only. `TitleSplit.GetSongTitleArtist` itself models multi-line text, where `.` stops at a newline.
- `YouTubeMatch.FindBestMatch`: the `artist` argument is modelled as a string, as `standardize_playlist` passes it. The `List[str]` annotation is not followed.
- `song_search_results` is left out. It returns a tuple where a list is expected, and in `Playlists.StandardizePlaylist` its outcome cannot change the result: an entry that needs a search always reaches the `find_best_match` call without `result_type`, which raises TypeError.
- `YouTubeMatch.FindBestMatch`: every search result is assumed to have a `title`. Every entry of its `artists` list is assumed to have a `name` and an `id` key. A missing `id` key is read as an `id` of None. The KeyError raised for a missing `title`, `name` or `id` key is not modelled.
- `Playlists.StandardizePlaylist`: a playlist entry or a chosen video always has `title` and `videoId`, and every thumbnail has `url`. The KeyError for a missing `title`, `videoId`, `thumbnails` or `url` key is not modelled. A missing `artist` key is the None case of `PlaylistEntry.artist`. An empty `thumbnails` list is modelled, as IndexError.
- `Playlists.StandardizePlaylist`: the "No YTMusic results" exception is not modelled, because the search is left out. An entry without `feedbackTokens` always ends in ValueError from `extract_song_info` or in TypeError.
- `Notebook.AnalyzeSimilarity`: only the reply parse and the ranking are modelled; the reply is an input. The prompt building is left out. As written it formats `view_count` with `:,` (music_to_spotify.py:213), and candidates built by the search (music_to_spotify.py:539) hold `view_count` as text, so the prompt raises ValueError for every non-empty list of such candidates before any reply exists.
- The `quality_score` field of a candidate, the `to_dict` and `__str__` helpers, `is_available` and `generate()` of the notebook script are left out. They are bookkeeping or I/O.
