/**
 * Text normalisation, nested lookup and the heuristic search query
 * (utils/text_processing.py).
 */
module TextProcessing {
  import opened Wrappers
  import opened Text
  import opened Tracks

  // ---------------------------------------------------------------------
  // preprocess_text

  predicate IsLowerAlnum(c: char) { IsAsciiLower(c) || IsAsciiDigit(c) }

  /** `re.sub(r"[^a-z0-9]", "", t)`. */
  function KeepLowerAlnum(t: string): (r: string)
    ensures forall i :: 0 <= i < |r| ==> IsLowerAlnum(r[i])
    decreases |t|
  {
    if t == [] then []
    else (if IsLowerAlnum(t[0]) then [t[0]] else []) + KeepLowerAlnum(t[1..])
  }

  /** `preprocess_text`: lower-case the text and keep only `[a-z0-9]`. */
  function Preprocess(text: string): (r: string)
    ensures text == "" ==> r == ""
    ensures forall i :: 0 <= i < |r| ==> IsLowerAlnum(r[i])
  {
    if text == "" then "" else KeepLowerAlnum(Lower(text))
  }

  /** Normalised text has no white space left, so `token_sort_ratio` sees it
      as one token: reordering the words of a title changes its normal form
      rather than being ignored. */
  lemma PreprocessedIsOneToken(text: string)
    ensures Words(Preprocess(text)) == if Preprocess(text) == "" then [] else [Preprocess(text)]
  {
    var r := Preprocess(text);
    if r != "" {
      var k := WordEnd(r, 1);
      assert k == |r|;
      assert r[..k] == r && r[k..] == [];
    }
  }

  lemma {:induction false} KeepLowerAlnumOfLowerAlnum(t: string)
    requires forall i :: 0 <= i < |t| ==> IsLowerAlnum(t[i])
    ensures KeepLowerAlnum(t) == t
    decreases |t|
  {
    if t != [] {
      KeepLowerAlnumOfLowerAlnum(t[1..]);
      assert [t[0]] + t[1..] == t;
    }
  }

  lemma {:induction false} LowerOfLowerAlnum(t: string)
    requires forall i :: 0 <= i < |t| ==> IsLowerAlnum(t[i])
    ensures Lower(t) == t
    decreases |t|
  {
    if t != [] {
      LowerOfLowerAlnum(t[1..]);
      assert [t[0]] + t[1..] == t;
    }
  }

  /** Normalising twice is normalising once. */
  lemma PreprocessIdempotent(text: string)
    ensures Preprocess(Preprocess(text)) == Preprocess(text)
  {
    var p := Preprocess(text);
    if p != "" {
      LowerOfLowerAlnum(p);
      KeepLowerAlnumOfLowerAlnum(p);
    }
  }

  /** The reference reading for ASCII text: each letter or digit, lower-cased,
      in input order; everything else dropped. */
  function AsciiNormalForm(s: string): string
    decreases |s|
  {
    if s == [] then []
    else
      var c := s[0];
      (if IsAsciiUpper(c) then [(c as int + 32) as char]
       else if IsAsciiLower(c) || IsAsciiDigit(c) then [c]
       else [])
      + AsciiNormalForm(s[1..])
  }

  lemma {:induction false} KeepLowerAlnumAppend(a: string, b: string)
    ensures KeepLowerAlnum(a + b) == KeepLowerAlnum(a) + KeepLowerAlnum(b)
    decreases |a|
  {
    if a == [] {
      assert a + b == b;
    } else {
      assert (a + b)[0] == a[0] && (a + b)[1..] == a[1..] + b;
      KeepLowerAlnumAppend(a[1..], b);
    }
  }

  lemma {:induction false} AsciiNormalFormAgrees(s: string)
    requires forall i :: 0 <= i < |s| ==> IsAscii(s[i])
    ensures KeepLowerAlnum(Lower(s)) == AsciiNormalForm(s)
    decreases |s|
  {
    if s != [] {
      AsciiNormalFormAgrees(s[1..]);
      var l := LowerChar(s[0]);
      KeepLowerAlnumAppend(l, Lower(s[1..]));
      assert KeepLowerAlnum(l) == KeepLowerAlnum([l[0]]) && l[1..] == [];
      assert KeepLowerAlnum(l[1..]) == [];
    }
  }

  /** For ASCII input, `preprocess_text` is the lower-cased input with every
      character outside `[A-Za-z0-9]` removed, order kept. */
  lemma PreprocessAscii(s: string)
    requires forall i :: 0 <= i < |s| ==> IsAscii(s[i])
    ensures Preprocess(s) == AsciiNormalForm(s)
  {
    if s != "" {
      AsciiNormalFormAgrees(s);
    }
  }

  // ---------------------------------------------------------------------
  // safe_get

  /** A decoded JSON-like value. */
  datatype Value =
    | Dict(entries: map<string, Value>)
    | List(items: seq<Value>)
    | Str(s: string)
    | Num(n: int)
    | Null

  /** The value reached by indexing with each key in turn, or `None` at the
      first missing key or non-dictionary value. */
  function Follow(d: Value, keys: seq<string>): Option<Value>
    decreases |keys|
  {
    if keys == [] then Some(d)
    else if d.Dict? && keys[0] in d.entries then Follow(d.entries[keys[0]], keys[1..])
    else None
  }

  /** Following `k1 + k2` is following `k1`, then `k2` from where it ends. */
  lemma {:induction false} FollowAppend(d: Value, k1: seq<string>, k2: seq<string>)
    ensures Follow(d, k1 + k2)
         == (match Follow(d, k1)
             case None => None
             case Some(v) => Follow(v, k2))
    decreases |k1|
  {
    if k1 == [] {
      assert k1 + k2 == k2;
    } else {
      assert (k1 + k2)[0] == k1[0] && (k1 + k2)[1..] == k1[1..] + k2;
      if d.Dict? && k1[0] in d.entries {
        FollowAppend(d.entries[k1[0]], k1[1..], k2);
      }
    }
  }

  /** `safe_get`: indexing a list, string, number or null with a string key
      raises TypeError and a missing key raises KeyError; both give `default`. */
  method SafeGet(d: Value, keys: seq<string>, default: Value) returns (r: Value)
    ensures keys == [] ==> r == d
    ensures r == Follow(d, keys).GetOr(default)
  {
    var cur := d;
    var i := 0;
    while i < |keys|
      invariant 0 <= i <= |keys|
      invariant Follow(d, keys) == Follow(cur, keys[i..])
    {
      var key := keys[i];
      assert keys[i..][0] == key && keys[i..][1..] == keys[i + 1..];
      if cur.Dict? && key in cur.entries {
        cur := cur.entries[key];
      } else {
        return default;
      }
      i := i + 1;
    }
    assert keys[i..] == [];
    r := cur;
  }

  // ---------------------------------------------------------------------
  // generate_fallback_search_query

  const VersionKeywords: seq<string> :=
    ["remaster", "deluxe", "live", "version", "edit", "mix", "bonus"]

  predicate MentionsVersion(album: string) {
    exists i :: 0 <= i < |VersionKeywords| && Contains(Lower(album), VersionKeywords[i])
  }

  /** The list `query_parts`: the name; the first artist, if any; the other
      artists after "feat. ", if there are two or more; the album, if it
      names a version. */
  function QueryParts(track: SpotifyTrack): (parts: seq<string>)
    ensures |parts| == 1 + (if |track.artists| > 0 then 1 else 0)
                         + (if |track.artists| > 1 then 1 else 0)
                         + (if MentionsVersion(track.album) then 1 else 0)
    ensures parts[0] == track.name
    ensures |track.artists| > 0 ==> parts[1] == track.artists[0]
    ensures |track.artists| > 1 ==> parts[2] == "feat. " + Join(", ", track.artists[1..])
    ensures MentionsVersion(track.album) <==> |parts| > 1 + Min2(|track.artists|)
    ensures MentionsVersion(track.album) ==> parts[|parts| - 1] == track.album
  {
    var artists := track.artists;
    [track.name]
    + (if |artists| > 0 then [artists[0]] else [])
    + (if |artists| > 1 then ["feat. " + Join(", ", artists[1..])] else [])
    + (if MentionsVersion(track.album) then [track.album] else [])
  }

  function Min2(n: nat): nat { if n < 2 then n else 2 }

  /** `query_parts` built as the function builds it, one append at a time. */
  method CollectQueryParts(track: SpotifyTrack) returns (parts: seq<string>)
    ensures parts == QueryParts(track)
  {
    var artists := track.artists;
    parts := [track.name];
    if |artists| > 0 {
      parts := parts + [artists[0]];
    }
    if |artists| > 1 {
      parts := parts + ["feat. " + Join(", ", artists[1..])];
    }
    if MentionsVersion(track.album) {
      parts := parts + [track.album];
    }
  }

  /** `re.sub(r"\s+", " ", s)`: every maximal run of white space becomes one space. */
  function SquashSpaceRuns(s: string): string
    decreases |s|
  {
    if s == [] then []
    else if IsSpace(s[0]) then " " + SquashSpaceRuns(TrimLeft(s, IsSpace))
    else [s[0]] + SquashSpaceRuns(s[1..])
  }

  /** `re.sub(r"\s+", " ", s).strip()`. */
  function CollapseWhitespace(s: string): (r: string)
    ensures Collapsed(r)
  {
    SquashStripIsJoinedWords(s);
    WordsSpaceFree(s);
    JoinedWordsCollapsed(Words(s));
    Strip(SquashSpaceRuns(s))
  }

  /** `generate_fallback_search_query`. */
  function FallbackSearchQuery(track: SpotifyTrack): (q: string)
    ensures Collapsed(q)
  {
    CollapseWhitespace(Join(" ", QueryParts(track)))
  }

  /** No white space at either end, and every white-space character is a
      single ' ' followed by a non-space character. */
  ghost predicate Collapsed(q: string) {
    (q == [] || (!IsSpace(q[0]) && !IsSpace(q[|q| - 1])))
    && forall i :: 0 <= i < |q| && IsSpace(q[i]) ==>
         q[i] == ' ' && i + 1 < |q| && !IsSpace(q[i + 1])
  }

  ghost predicate SpaceFreeWord(w: string) {
    w != [] && forall j :: 0 <= j < |w| ==> !IsSpace(w[j])
  }

  lemma {:induction false} WordsSpaceFree(s: string)
    ensures forall i :: 0 <= i < |Words(s)| ==> SpaceFreeWord(Words(s)[i])
    ensures s != [] && !IsSpace(s[0]) ==> Words(s) != []
    decreases |s|
  {
    if s == [] {
    } else if IsSpace(s[0]) {
      WordsSpaceFree(s[1..]);
    } else {
      var k := WordEnd(s, 1);
      WordsSpaceFree(s[k..]);
    }
  }

  lemma {:induction false} JoinedWordsCollapsed(ws: seq<string>)
    requires forall i :: 0 <= i < |ws| ==> SpaceFreeWord(ws[i])
    ensures Collapsed(Join(" ", ws))
    decreases |ws|
  {
    if |ws| > 1 {
      JoinedWordsCollapsed(ws[1..]);
      var w, rest := ws[0], Join(" ", ws[1..]);
      var q := w + " " + rest;
      assert SpaceFreeWord(ws[1]);
      assert rest != [];
      forall i | 0 <= i < |q| && IsSpace(q[i])
        ensures q[i] == ' ' && i + 1 < |q| && !IsSpace(q[i + 1])
      {
        if i < |w| {
          assert false;
        } else if i == |w| {
          assert q[i + 1] == rest[0];
        } else {
          assert q[i] == rest[i - |w| - 1];
          assert i + 1 < |q| ==> q[i + 1] == rest[i - |w|];
        }
      }
    }
  }

  /** The collapsed text is the words of the input joined by single spaces:
      `re.sub(r"\s+", " ", s).strip() == " ".join(s.split())`. */
  lemma CollapseIsJoinedWords(s: string)
    ensures CollapseWhitespace(s) == Join(" ", Words(s))
  {
    SquashStripIsJoinedWords(s);
  }

  lemma SquashStripIsJoinedWords(s: string)
    ensures Strip(SquashSpaceRuns(s)) == Join(" ", Words(s))
  {
    var u := TrimLeft(s, IsSpace);
    SquashTrimLeft(s);
    WordsTrimLeft(s);
    SquashedWords(u);
  }

  lemma {:induction false} WordsTrimLeft(s: string)
    ensures Words(TrimLeft(s, IsSpace)) == Words(s)
    decreases |s|
  {
    if s != [] && IsSpace(s[0]) {
      WordsTrimLeft(s[1..]);
    }
  }

  lemma {:induction false} TrimLeftStable(s: string)
    requires s == [] || !IsSpace(s[0])
    ensures TrimLeft(s, IsSpace) == s
  {
  }

  lemma {:induction false} SquashHead(s: string)
    requires s != [] && !IsSpace(s[0])
    ensures SquashSpaceRuns(s) != [] && SquashSpaceRuns(s)[0] == s[0]
  {
  }

  lemma {:induction false} SquashTrimLeft(s: string)
    ensures TrimLeft(SquashSpaceRuns(s), IsSpace) == SquashSpaceRuns(TrimLeft(s, IsSpace))
  {
    if s != [] && IsSpace(s[0]) {
      var u := TrimLeft(s, IsSpace);
      var x := SquashSpaceRuns(u);
      assert SquashSpaceRuns(s) == " " + x;
      assert (" " + x)[1..] == x;
      assert TrimLeft(" " + x, IsSpace) == TrimLeft(x, IsSpace);
      if u != [] {
        SquashHead(u);
      }
      TrimLeftStable(x);
    } else if s != [] {
      SquashHead(s);
      TrimLeftStable(SquashSpaceRuns(s));
    }
  }

  lemma {:induction false} SquashSpaceFreePrefix(w: string, t: string)
    requires forall j :: 0 <= j < |w| ==> !IsSpace(w[j])
    ensures SquashSpaceRuns(w + t) == w + SquashSpaceRuns(t)
    decreases |w|
  {
    if w == [] {
      assert w + t == t;
    } else {
      assert (w + t)[0] == w[0] && (w + t)[1..] == w[1..] + t;
      SquashSpaceFreePrefix(w[1..], t);
      assert [w[0]] + w[1..] == w;
    }
  }

  lemma {:induction false} TrimRightSpaces(a: string, b: string)
    requires forall j :: 0 <= j < |b| ==> IsSpace(b[j])
    ensures TrimRight(a + b, IsSpace) == TrimRight(a, IsSpace)
    decreases |b|
  {
    if b != [] {
      assert (a + b)[..|a + b| - 1] == a + b[..|b| - 1];
      TrimRightSpaces(a, b[..|b| - 1]);
    } else {
      assert a + b == a;
    }
  }

  lemma {:induction false} TrimRightKeepsPrefix(a: string, b: string)
    requires b != [] && !IsSpace(b[0])
    ensures TrimRight(a + b, IsSpace) == a + TrimRight(b, IsSpace)
    decreases |b|
  {
    if IsSpace(b[|b| - 1]) {
      assert |b| > 1;
      assert (a + b)[..|a + b| - 1] == a + b[..|b| - 1];
      TrimRightKeepsPrefix(a, b[..|b| - 1]);
    }
  }

  /** The main step: for text that does not start with white space, trimming
      the right end of the squashed text gives the joined words. */
  lemma {:induction false} SquashedWords(u: string)
    requires u == [] || !IsSpace(u[0])
    ensures TrimRight(SquashSpaceRuns(u), IsSpace) == Join(" ", Words(u))
    decreases |u|
  {
    if u != [] {
      var k := WordEnd(u, 1);
      var w, t := u[..k], u[k..];
      assert u == w + t;
      SquashSpaceFreePrefix(w, t);
      assert Words(u) == [w] + Words(t);
      if t == [] {
        SquashedLastWord(w);
      } else {
        var v := TrimLeft(t, IsSpace);
        SquashLeadingSpace(t);
        WordsTrimLeft(t);
        if v == [] {
          assert SquashSpaceRuns(u) == w + " ";
          TrimRightSpaces(w, " ");
        } else {
          SquashedWords(v);
          WordsSpaceFree(v);
          SquashHead(v);
          SquashedNextWord(w, SquashSpaceRuns(v), Words(v));
        }
      }
    }
  }

  lemma SquashedLastWord(w: string)
    requires w != [] && forall j :: 0 <= j < |w| ==> !IsSpace(w[j])
    ensures TrimRight(w + SquashSpaceRuns([]), IsSpace) == Join(" ", [w] + Words([]))
  {
    assert w + SquashSpaceRuns([]) == w;
    assert [w] + Words([]) == [w];
  }

  lemma SquashLeadingSpace(t: string)
    requires t != [] && IsSpace(t[0])
    ensures SquashSpaceRuns(t) == " " + SquashSpaceRuns(TrimLeft(t, IsSpace))
  {
  }

  lemma SquashedNextWord(w: string, x: string, ws: seq<string>)
    requires x != [] && !IsSpace(x[0]) && ws != []
    requires TrimRight(x, IsSpace) == Join(" ", ws)
    ensures TrimRight(w + (" " + x), IsSpace) == Join(" ", [w] + ws)
  {
    assert w + (" " + x) == (w + " ") + x;
    TrimRightKeepsPrefix(w + " ", x);
    assert ([w] + ws)[1..] == ws;
  }

  /** Each part of the query survives as its own words, in order: the name,
      the primary artist, "feat." with the other artists, and the album only
      when it names a version. */
  lemma FallbackQueryWords(track: SpotifyTrack)
    ensures FallbackSearchQuery(track) == Join(" ", Words(Join(" ", QueryParts(track))))
  {
    CollapseIsJoinedWords(Join(" ", QueryParts(track)));
  }
}
