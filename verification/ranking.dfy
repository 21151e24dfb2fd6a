/**
 * `results.sort(key=lambda x: x.score, reverse=True)`: Python's list sort is
 * stable, and `reverse=True` keeps equal keys in their original order. The
 * model is a stable descending insertion sort, with the three facts that
 * pin it down: sorted, a permutation, and stable.
 */
module Ranking {

  /** A `(score, item)` pair. */
  datatype Scored<T> = Scored(score: real, item: T)

  ghost predicate SortedDesc<T>(s: seq<Scored<T>>) {
    forall i, j :: 0 <= i < j < |s| ==> s[i].score >= s[j].score
  }

  /** Inserts `x` before the first element whose score is not above `x`'s. */
  function Insert<T>(x: Scored<T>, s: seq<Scored<T>>): (r: seq<Scored<T>>)
    ensures |r| == |s| + 1
    decreases |s|
  {
    if s == [] then [x]
    else if x.score >= s[0].score then [x] + s
    else [s[0]] + Insert(x, s[1..])
  }

  /** The list sorted by non-increasing score, ties in input order. */
  function SortDesc<T>(s: seq<Scored<T>>): (r: seq<Scored<T>>)
    ensures |r| == |s|
    decreases |s|
  {
    if s == [] then [] else Insert(s[0], SortDesc(s[1..]))
  }

  /** The subsequence of entries whose score is exactly `k`. */
  function WithScore<T>(s: seq<Scored<T>>, k: real): seq<Scored<T>>
    decreases |s|
  {
    if s == [] then []
    else (if s[0].score == k then [s[0]] else []) + WithScore(s[1..], k)
  }

  lemma {:induction false} InsertSorted<T>(x: Scored<T>, s: seq<Scored<T>>)
    requires SortedDesc(s)
    ensures SortedDesc(Insert(x, s))
    ensures Insert(x, s)[0] == x || (s != [] && Insert(x, s)[0] == s[0])
    decreases |s|
  {
    if s != [] && x.score < s[0].score {
      InsertSorted(x, s[1..]);
    }
  }

  lemma {:induction false} InsertMultiset<T>(x: Scored<T>, s: seq<Scored<T>>)
    ensures multiset(Insert(x, s)) == multiset(s) + multiset{x}
    decreases |s|
  {
    if s != [] && x.score < s[0].score {
      InsertMultiset(x, s[1..]);
      assert s == [s[0]] + s[1..];
    }
  }

  lemma {:induction false} WithScoreAppend<T>(a: seq<Scored<T>>, b: seq<Scored<T>>, k: real)
    ensures WithScore(a + b, k) == WithScore(a, k) + WithScore(b, k)
    decreases |a|
  {
    if a == [] {
      assert a + b == b;
    } else {
      var h := if a[0].score == k then [a[0]] else [];
      assert (a + b)[0] == a[0] && (a + b)[1..] == a[1..] + b;
      assert WithScore(a + b, k) == h + WithScore(a[1..] + b, k);
      WithScoreAppend(a[1..], b, k);
      assert h + (WithScore(a[1..], k) + WithScore(b, k))
          == (h + WithScore(a[1..], k)) + WithScore(b, k);
    }
  }

  /** Inserting into a sorted list puts `x` ahead of every entry with its own score. */
  lemma {:induction false} InsertWithScore<T>(x: Scored<T>, s: seq<Scored<T>>, k: real)
    requires SortedDesc(s)
    ensures WithScore(Insert(x, s), k)
         == (if x.score == k then [x] else []) + WithScore(s, k)
    decreases |s|
  {
    if s == [] {
    } else if x.score >= s[0].score {
      assert Insert(x, s) == [x] + s;
      assert ([x] + s)[1..] == s;
    } else {
      InsertWithScore(x, s[1..], k);
      assert s[0].score != k || x.score != k;
    }
  }

  /** The result is ordered by non-increasing score. */
  lemma {:induction false} SortDescSorted<T>(s: seq<Scored<T>>)
    ensures SortedDesc(SortDesc(s))
    decreases |s|
  {
    if s != [] {
      SortDescSorted(s[1..]);
      InsertSorted(s[0], SortDesc(s[1..]));
    }
  }

  /** The result holds exactly the input entries, as often as they occur. */
  lemma {:induction false} SortDescPermutation<T>(s: seq<Scored<T>>)
    ensures multiset(SortDesc(s)) == multiset(s)
    decreases |s|
  {
    if s != [] {
      SortDescPermutation(s[1..]);
      InsertMultiset(s[0], SortDesc(s[1..]));
      assert s == [s[0]] + s[1..];
    }
  }

  /** Entries with equal scores keep their input order. */
  lemma {:induction false} SortDescStable<T>(s: seq<Scored<T>>, k: real)
    ensures WithScore(SortDesc(s), k) == WithScore(s, k)
    decreases |s|
  {
    if s != [] {
      SortDescStable(s[1..], k);
      SortDescSorted(s[1..]);
      InsertWithScore(s[0], SortDesc(s[1..]), k);
    }
  }

  /** `r` orders the entries of `s` by non-increasing score, keeps every
      entry as often as it occurs, and keeps equal scores in input order. */
  ghost predicate StableRanking<T>(r: seq<Scored<T>>, s: seq<Scored<T>>) {
    SortedDesc(r)
    && multiset(r) == multiset(s)
    && forall k :: WithScore(r, k) == WithScore(s, k)
  }

  /** `SortDesc` is a stable ranking of its input. */
  lemma SortDescRanks<T>(s: seq<Scored<T>>)
    ensures StableRanking(SortDesc(s), s)
  {
    SortDescSorted(s);
    SortDescPermutation(s);
    forall k ensures WithScore(SortDesc(s), k) == WithScore(s, k) {
      SortDescStable(s, k);
    }
  }

  /** Every entry of a stable ranking comes from the input. */
  lemma RankingEntries<T>(r: seq<Scored<T>>, s: seq<Scored<T>>)
    requires multiset(r) == multiset(s)
    ensures forall i :: 0 <= i < |r| ==> r[i] in s
  {
    forall i | 0 <= i < |r| ensures r[i] in s {
      assert r[i] in multiset(r);
    }
  }

  /** Any sorted list with the same per-score subsequences as `s` is `SortDesc(s)`:
      stable sorting has exactly one answer. */
  lemma {:induction false} StableSortUnique<T>(s: seq<Scored<T>>, t: seq<Scored<T>>)
    requires SortedDesc(t)
    requires forall k :: WithScore(t, k) == WithScore(s, k)
    ensures t == SortDesc(s)
  {
    var r := SortDesc(s);
    SortDescSorted(s);
    forall k ensures WithScore(t, k) == WithScore(r, k) {
      SortDescStable(s, k);
    }
    SortedSameGroupsEqual(t, r);
  }

  lemma {:induction false} WithScoreHead<T>(s: seq<Scored<T>>)
    requires s != []
    ensures WithScore(s, s[0].score) != [] && WithScore(s, s[0].score)[0] == s[0]
  {
  }

  lemma {:induction false} WithScoreNone<T>(s: seq<Scored<T>>, k: real)
    requires forall i :: 0 <= i < |s| ==> s[i].score != k
    ensures WithScore(s, k) == []
    decreases |s|
  {
    if s != [] {
      WithScoreNone(s[1..], k);
    }
  }

  /** Two sorted lists with the same per-score subsequences are equal. */
  lemma {:induction false} SortedSameGroupsEqual<T>(t: seq<Scored<T>>, r: seq<Scored<T>>)
    requires SortedDesc(t) && SortedDesc(r)
    requires forall k :: WithScore(t, k) == WithScore(r, k)
    ensures t == r
    decreases |t| + |r|
  {
    if t == [] {
      if r != [] {
        WithScoreHead(r);
        assert false;
      }
    } else if r == [] {
      WithScoreHead(t);
      assert false;
    } else {
      // The two heads carry the largest score of each list, so they agree.
      WithScoreHead(t);
      WithScoreHead(r);
      if t[0].score > r[0].score {
        WithScoreNone(r, t[0].score);
        assert false;
      } else if t[0].score < r[0].score {
        WithScoreNone(t, r[0].score);
        assert false;
      }
      assert t[0] == r[0];
      forall k ensures WithScore(t[1..], k) == WithScore(r[1..], k) {
        assert WithScore(t, k) == (if t[0].score == k then [t[0]] else []) + WithScore(t[1..], k);
        assert WithScore(r, k) == (if r[0].score == k then [r[0]] else []) + WithScore(r[1..], k);
        assert WithScore(t, k) == WithScore(r, k);
        if t[0].score == k {
          assert ([t[0]] + WithScore(t[1..], k))[1..] == WithScore(t[1..], k);
          assert ([r[0]] + WithScore(r[1..], k))[1..] == WithScore(r[1..], k);
        } else {
          assert [] + WithScore(t[1..], k) == WithScore(t[1..], k);
          assert [] + WithScore(r[1..], k) == WithScore(r[1..], k);
        }
      }
      SortedSameGroupsEqual(t[1..], r[1..]);
      assert t == [t[0]] + t[1..] && r == [r[0]] + r[1..];
    }
  }

  /** A prefix one longer is the prefix and the next element. */
  lemma TakeOneMore<T>(s: seq<T>, i: nat)
    requires i < |s|
    ensures s[..i + 1] == s[..i] + [s[i]]
  {
  }
}
