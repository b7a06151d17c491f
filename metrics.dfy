/**
 * `percentile_normalization` from `metrics.py`: the end times of the eleven
 * lifetime percentiles 0%, 10%, ..., 100% of one user, read off the user's
 * post dates (in ascending order, as the post query returns them) and the
 * user's creation date.  The two queries are inputs here: `posts` is the
 * result of the post query and `creationDates` the result of the user query,
 * which is empty for an unknown user.
 */
module Metrics {
  import opened Wrappers

  /** Number of percentiles: `range(0, 11)`. */
  const Percentiles: nat := 11

  /**
   * `int(len(posts) * p)` for `p = i * 0.1`, with the product taken exactly:
   * how many of the user's posts fall within the first `i` tenths.
   */
  function PercentileIndex(len: nat, i: nat): (x: nat)
    requires i < Percentiles
    ensures x <= len
    ensures x * 10 <= len * i < (x + 1) * 10
    ensures i == 0 ==> x == 0
    ensures i == Percentiles - 1 ==> x == len
  {
    (len * i) / 10
  }

  /** The end time of percentile `i`: the creation date before any post, else the `x`-th post. */
  function PercentileTime(posts: seq<int>, start: int, i: nat): int
    requires i < Percentiles
  {
    var x := PercentileIndex(|posts|, i);
    if x == 0 then start else posts[x - 1]
  }

  /**
   * The vector `percentile_normalization` returns for the post dates `posts`
   * and the creation date `start`.
   */
  function PercentileTimes(posts: seq<int>, start: int): (times: seq<int>)
    ensures |times| == Percentiles
    ensures times[0] == start
    ensures posts == [] ==> forall i :: 0 <= i < |times| ==> times[i] == start
    ensures posts != [] ==> times[Percentiles - 1] == posts[|posts| - 1]
    ensures forall i :: 0 <= i < |times| ==> times[i] == start || times[i] in posts
  {
    seq(Percentiles, i requires 0 <= i < Percentiles => PercentileTime(posts, start, i))
  }

  /**
   * `percentile_normalization`: `None` for a user without a creation date
   * (the source's `[0]` on an empty result fails there), otherwise the eleven
   * end times, appended one percentile at a time.
   */
  method PercentileNormalization(posts: seq<int>, creationDates: seq<int>) returns (times: Option<seq<int>>)
    ensures times.None? <==> creationDates == []
    ensures times.Some? ==> times.value == PercentileTimes(posts, creationDates[0])
  {
    if |creationDates| == 0 {
      return None;
    }
    var start := creationDates[0];
    ghost var expected := PercentileTimes(posts, start);
    var ts: seq<int> := [];
    var i := 0;
    while i < Percentiles
      invariant 0 <= i <= Percentiles
      invariant ts == expected[..i]
    {
      var x := (|posts| * i) / 10;
      assert x == PercentileIndex(|posts|, i);
      if x == 0 {
        ts := ts + [start];
      } else {
        ts := ts + [posts[x - 1]];
      }
      assert expected[..i + 1] == expected[..i] + [PercentileTime(posts, start, i)];
      i := i + 1;
    }
    return Some(ts);
  }

  /** A larger percentile never covers fewer posts. */
  lemma PercentileIndexMonotone(len: nat, i: nat, j: nat)
    requires i <= j < Percentiles
    ensures PercentileIndex(len, i) <= PercentileIndex(len, j)
  {
    assert len * i <= len * j by {
      assert len * j == len * i + len * (j - i);
    }
  }

  ghost predicate Ascending(s: seq<int>)
  {
    forall i, j :: 0 <= i < j < |s| ==> s[i] <= s[j]
  }

  /**
   * Entries taken from the posts are non-decreasing, because the posts come
   * in ascending date order and the index grows with the percentile; when the
   * user was created no later than its first post the whole vector is.
   */
  lemma PercentileTimesOrdered(posts: seq<int>, start: int)
    requires Ascending(posts)
    ensures var times := PercentileTimes(posts, start);
      forall i, j :: 0 <= i < j < Percentiles && PercentileIndex(|posts|, i) > 0 ==> times[i] <= times[j]
    ensures posts != [] && start <= posts[0] ==> Ascending(PercentileTimes(posts, start))
  {
    var times := PercentileTimes(posts, start);
    forall i, j | 0 <= i < j < Percentiles
      ensures PercentileIndex(|posts|, i) > 0 ==> times[i] <= times[j]
      ensures posts != [] && start <= posts[0] ==> times[i] <= times[j]
    {
      PercentileIndexMonotone(|posts|, i, j);
    }
  }
}
