/**
 * The CAU rating engine.  The `cau` table is an append-only log of
 * (user, rating, time) entries.  Building it seeds every user with 1500 and
 * then replays the tournament feed in date order.  Each tournament moves
 * rating between its two players in proportion to their score difference,
 * divided by the number of other answers to the question.
 *
 * The pure parts are functions over the log: `RatingAt` (`_cau`),
 * `History` (`_cau_history`), `ApplyTournament` (one tournament) and
 * `Replay` (the feed).  The table itself is the class `CauTable`.
 */
module Cau {
  import opened Wrappers
  import opened Sorting
  import opened CauQueries

  /** The rating every user starts with. */
  const DefaultRating: real := 1500.0

  /** A row of the `cau` table. */
  datatype Entry = Entry(user: int, rating: real, time: int)

  function EntryTime(e: Entry): int
  {
    e.time
  }

  predicate HasRating(log: seq<Entry>, user: int)
  {
    exists i :: 0 <= i < |log| && log[i].user == user
  }

  /** The WHERE clause of `_cau`: the user's rows, at or before `end` when there is one. */
  predicate Visible(e: Entry, user: int, end: Option<int>)
  {
    e.user == user && (end.None? || e.time <= end.value)
  }

  /**
   * The row that `ORDER BY time DESC LIMIT 1` returns, found by a scan from
   * the first row; `LatestIndexSpec` states what it is.
   */
  function LatestIndex(log: seq<Entry>, user: int, end: Option<int>): (r: Option<nat>)
    ensures r.Some? ==> r.value < |log|
    decreases |log|
  {
    if log == [] then None
    else
      var prev := LatestIndex(log[..|log| - 1], user, end);
      var last := log[|log| - 1];
      if Visible(last, user, end) && (prev.None? || log[prev.value].time <= last.time)
      then Some(|log| - 1)
      else prev
  }

  /**
   * `LatestIndex` finds no row exactly when no row is visible; otherwise it
   * finds a visible row with the greatest time, and among rows with that time
   * the one appended last.
   */
  lemma {:induction false} LatestIndexSpec(log: seq<Entry>, user: int, end: Option<int>)
    ensures var r := LatestIndex(log, user, end);
      && (r.None? <==> forall j :: 0 <= j < |log| ==> !Visible(log[j], user, end))
      && (r.Some? ==> Visible(log[r.value], user, end))
      && (r.Some? ==> forall j :: 0 <= j < |log| && Visible(log[j], user, end) ==>
            log[j].time < log[r.value].time || (log[j].time == log[r.value].time && j <= r.value))
    decreases |log|
  {
    if log != [] {
      var init := log[..|log| - 1];
      LatestIndexSpec(init, user, end);
      assert forall j :: 0 <= j < |init| ==> init[j] == log[j];
    }
  }

  /**
   * `_cau`: the rating of the user's latest entry (at or before `end` when
   * given).  `None` is the case where `fetchone()` finds no row.
   */
  function RatingAt(log: seq<Entry>, user: int, end: Option<int>): Option<real>
  {
    match LatestIndex(log, user, end)
    case None => None
    case Some(i) => Some(log[i].rating)
  }

  /**
   * What `ORDER BY time DESC LIMIT 1` may return as the database runs it:
   * the rating of any visible row that no visible row is later than.  Among
   * rows with the same time the database is free to pick any.
   */
  ghost predicate MayReturn(log: seq<Entry>, user: int, end: Option<int>, rating: real)
  {
    exists i :: (0 <= i < |log| && Visible(log[i], user, end) && log[i].rating == rating &&
      forall j :: 0 <= j < |log| && Visible(log[j], user, end) ==> log[j].time <= log[i].time)
  }

  /**
   * `_cau` fails exactly when the user has no visible row; otherwise it returns
   * one of the ratings the query may return.
   */
  lemma RatingAtLatest(log: seq<Entry>, user: int, end: Option<int>)
    ensures var r := RatingAt(log, user, end);
      && (r.None? <==> forall j :: 0 <= j < |log| ==> !Visible(log[j], user, end))
      && (r.Some? ==> MayReturn(log, user, end, r.value))
  {
    LatestIndexSpec(log, user, end);
  }

  /**
   * A user who plays two tournaments decided at the same time gets two rows
   * with equal times.  The query may then return the rating written by the
   * first of them, which the second tournament has already replaced.  The
   * log is the one `TieLogRows` derives from two tournaments.
   */
  lemma StaleReadOnTie()
    ensures var log := TieLog();
      && MayReturn(log, 1, None, 1510.0)
      && RatingAt(log, 1, None) == Some(1505.0)
  {
    TieLogRows();
    var log := TieLog();
    assert Visible(log[4], 1, None) && log[4].rating == 1510.0;
    assert forall j :: 0 <= j < |log| && Visible(log[j], 1, None) ==> log[j].time <= log[4].time;
    TieLatest();
  }

  /** The scan of `_cau` over the tie log ends at the row appended last. */
  lemma TieLatest()
    ensures LatestIndex(TieLog(), 1, None) == Some(6)
  {
    TieLogRows();
    var seed := TieSeed();
    var e3, e4, e5, e6 := Entry(2, 1490.0, 5), Entry(1, 1510.0, 5), Entry(3, 1505.0, 5), Entry(1, 1505.0, 5);
    LatestSeed(1);
    LatestAppend(seed, e3, 1, None);
    LatestAppend(seed + [e3], e4, 1, None);
    LatestAppend(seed + [e3, e4], e5, 1, None);
    LatestAppend(seed + [e3, e4, e5], e6, 1, None);
    assert seed + [e3] + [e4] == seed + [e3, e4];
    assert seed + [e3, e4] + [e5] == seed + [e3, e4, e5];
    assert seed + [e3, e4, e5] + [e6] == TieLog();
  }

  /** One step of `LatestIndex`: the scan meets one more row. */
  lemma LatestAppend(log: seq<Entry>, e: Entry, user: int, end: Option<int>)
    ensures var prev := LatestIndex(log, user, end);
      LatestIndex(log + [e], user, end)
        == if Visible(e, user, end) && (prev.None? || log[prev.value].time <= e.time) then Some(|log|) else prev
  {
    assert (log + [e])[..|log|] == log;
  }

  /**
   * A question (post 7) answered by users 2, 3 and then 1, at times 3, 4 and
   * 5, with scores 10, 40 and 30.  User 1's answer closes two tournaments,
   * both decided at time 5.
   */
  function TieQuestion(): seq<Post>
  {
    [Post(7, 9, 0, 0, None), Post(8, 2, 10, 3, Some(7)), Post(9, 3, 40, 4, Some(7)), Post(10, 1, 30, 5, Some(7))]
  }

  /** The seed rows of the answerers, one each, at time 0. */
  function TieSeed(): seq<Entry>
  {
    [Entry(2, 1500.0, 0), Entry(3, 1500.0, 0), Entry(1, 1500.0, 0)]
  }

  function TieLog(): seq<Entry>
  {
    TieSeedRatings();
    var first := Tournament(PlayerResult(2, 10, 3), PlayerResult(1, 30, 5), 7);
    var second := Tournament(PlayerResult(3, 40, 4), PlayerResult(1, 30, 5), 7);
    var log1 := ApplyTournament(TieSeed(), TieQuestion(), first);
    assert log1[2].user == 1 && log1[1].user == 3;
    ApplyTournament(log1, TieQuestion(), second)
  }

  lemma TieSeedRatings()
    ensures CountReplies(TieQuestion(), 7) == 3
    ensures HasRating(TieSeed(), 1) && HasRating(TieSeed(), 2) && HasRating(TieSeed(), 3)
  {
    var posts := TieQuestion();
    assert posts[..3][..2][..1] == [posts[0]];
    assert TieSeed()[0].user == 2 && TieSeed()[1].user == 3 && TieSeed()[2].user == 1;
  }

  /** Each answerer's only seed row is the one `_cau` finds. */
  lemma LatestSeed(user: int)
    requires 1 <= user <= 3
    ensures LatestIndex(TieSeed(), user, None) == Some(if user == 2 then 0 else if user == 3 then 1 else 2)
  {
    var seed := TieSeed();
    LatestAppend([], seed[0], user, None);
    LatestAppend([seed[0]], seed[1], user, None);
    LatestAppend([seed[0], seed[1]], seed[2], user, None);
    assert [] + [seed[0]] == [seed[0]];
    assert [seed[0]] + [seed[1]] == [seed[0], seed[1]];
    assert [seed[0], seed[1]] + [seed[2]] == seed;
  }

  /** The rows the two tournaments append to the seed rows. */
  lemma TieLogRows()
    ensures TieLog() == TieSeed() + [Entry(2, 1490.0, 5), Entry(1, 1510.0, 5), Entry(3, 1505.0, 5), Entry(1, 1505.0, 5)]
  {
    TieSeedRatings();
    var seed := TieSeed();
    LatestSeed(1);
    LatestSeed(2);
    LatestSeed(3);
    assert CurrentRating(seed, 1) == 1500.0 && CurrentRating(seed, 2) == 1500.0;
    assert Normalizer(3) == 0.5;
    var first := Tournament(PlayerResult(2, 10, 3), PlayerResult(1, 30, 5), 7);
    var log1 := ApplyTournament(seed, TieQuestion(), first);
    assert log1 == seed + [Entry(2, 1490.0, 5)] + [Entry(1, 1510.0, 5)];
    LatestAppend(seed, log1[3], 1, None);
    LatestAppend(seed, log1[3], 3, None);
    LatestAppend(seed + [log1[3]], log1[4], 1, None);
    LatestAppend(seed + [log1[3]], log1[4], 3, None);
    assert CurrentRating(log1, 1) == 1510.0 && CurrentRating(log1, 3) == 1500.0;
  }

  /** A user with a row has a rating: the build's reads of `_cau` never fail. */
  lemma RatingFound(log: seq<Entry>, user: int)
    requires HasRating(log, user)
    ensures RatingAt(log, user, None).Some?
  {
    LatestIndexSpec(log, user, None);
  }

  /** The rating the engine reads for a player during the build (`_cau` without a date). */
  function CurrentRating(log: seq<Entry>, user: int): real
    requires HasRating(log, user)
  {
    RatingFound(log, user);
    RatingAt(log, user, None).value
  }

  /** The user's rows of the table, in the order they were appended. */
  function UserEntries(log: seq<Entry>, user: int): (r: seq<Entry>)
    ensures forall e :: e in r <==> e in log && e.user == user
    decreases |log|
  {
    if log == [] then []
    else
      var init := log[..|log| - 1];
      assert log == init + [log[|log| - 1]];
      UserEntries(init, user) + (if log[|log| - 1].user == user then [log[|log| - 1]] else [])
  }

  /** `_cau_history` as entries: the user's rows ordered by time. */
  function HistoryEntries(log: seq<Entry>, user: int): (r: seq<Entry>)
    ensures SortedBy(r, EntryTime)
    ensures multiset(r) == multiset(UserEntries(log, user))
  {
    SortBy(UserEntries(log, user), EntryTime)
  }

  /** The history holds as many rows as the user has, each a row of that user. */
  lemma HistoryEntriesOfUser(log: seq<Entry>, user: int)
    ensures var es := HistoryEntries(log, user);
      && |es| == |UserEntries(log, user)|
      && forall i :: 0 <= i < |es| ==> es[i] in log && es[i].user == user
  {
    var es := HistoryEntries(log, user);
    assert |multiset(es)| == |multiset(UserEntries(log, user))|;
    forall i | 0 <= i < |es| ensures es[i] in log && es[i].user == user {
      assert es[i] in multiset(es);
    }
  }

  /** `_cau_history`: the (rating, time) pairs of the user's rows, in history order. */
  function History(log: seq<Entry>, user: int): seq<(real, int)>
  {
    var es := HistoryEntries(log, user);
    seq(|es|, i requires 0 <= i < |es| => (es[i].rating, es[i].time))
  }

  /**
   * `_cau_history` returns one (rating, time) pair per row of the user,
   * ascending in time, each taken from a row of that user.
   */
  lemma HistoryShape(log: seq<Entry>, user: int)
    ensures var h := History(log, user);
      && |h| == |UserEntries(log, user)|
      && (forall i, j :: 0 <= i < j < |h| ==> h[i].1 <= h[j].1)
      && (forall i :: 0 <= i < |h| ==> exists e :: e in log && e.user == user && h[i] == (e.rating, e.time))
  {
    var es := HistoryEntries(log, user);
    var h := History(log, user);
    HistoryEntriesOfUser(log, user);
    forall i | 0 <= i < |h| ensures exists e :: e in log && e.user == user && h[i] == (e.rating, e.time) {
      assert h[i] == (es[i].rating, es[i].time);
    }
    forall i, j | 0 <= i < j < |h| ensures h[i].1 <= h[j].1 {
      assert EntryTime(es[i]) <= EntryTime(es[j]);
    }
  }

  /** `1.0 / (replies - 1)`: spreads a question's rating change over its other answers. */
  function Normalizer(replies: int): (n: real)
    requires replies >= 2
    ensures 0.0 < n <= 1.0
    ensures n * (replies - 1) as real == 1.0
  {
    1.0 / (replies - 1) as real
  }

  /** The CAU rule for one player: its score advantage, scaled by the normaliser. */
  function Updated(rating: real, ownScore: int, otherScore: int, normalizer: real): real
  {
    rating + normalizer * (ownScore - otherScore) as real
  }

  /**
   * One tournament of the build: both players' current ratings are read,
   * both new ratings are computed from them, and both are appended at the
   * tournament date.  What one player gains the other loses.
   */
  function ApplyTournament(log: seq<Entry>, posts: seq<Post>, t: Tournament): (r: seq<Entry>)
    requires HasRating(log, t.p1.id) && HasRating(log, t.p2.id)
    requires CountReplies(posts, t.qId) >= 2
    ensures |r| == |log| + 2 && r[..|log|] == log
    ensures r[|log|].user == t.p1.id && r[|log| + 1].user == t.p2.id
    ensures r[|log|].time == TournamentDate(t) && r[|log| + 1].time == TournamentDate(t)
    ensures var n := Normalizer(CountReplies(posts, t.qId));
      && r[|log|].rating == Updated(CurrentRating(log, t.p1.id), t.p1.score, t.p2.score, n)
      && r[|log| + 1].rating == Updated(CurrentRating(log, t.p2.id), t.p2.score, t.p1.score, n)
  {
    var n := Normalizer(CountReplies(posts, t.qId));
    var r1 := CurrentRating(log, t.p1.id);
    var r2 := CurrentRating(log, t.p2.id);
    log + [Entry(t.p1.id, Updated(r1, t.p1.score, t.p2.score, n), TournamentDate(t)),
           Entry(t.p2.id, Updated(r2, t.p2.score, t.p1.score, n), TournamentDate(t))]
  }

  /** Each tournament is zero-sum: the two new ratings add up to the two old ones. */
  lemma ZeroSum(log: seq<Entry>, posts: seq<Post>, t: Tournament)
    requires HasRating(log, t.p1.id) && HasRating(log, t.p2.id)
    requires CountReplies(posts, t.qId) >= 2
    ensures var r := ApplyTournament(log, posts, t);
      r[|log|].rating + r[|log| + 1].rating == CurrentRating(log, t.p1.id) + CurrentRating(log, t.p2.id)
  {
  }

  /**
   * The meaning of the update rule: a player's change, times the number of
   * other answers to the question, is its score advantage over the other
   * player.
   */
  lemma UpdatedAdvantage(rating: real, ownScore: int, otherScore: int, replies: int)
    requires replies >= 2
    ensures (Updated(rating, ownScore, otherScore, Normalizer(replies)) - rating) * (replies - 1) as real
         == (ownScore - otherScore) as real
  {
    var n, d, others := Normalizer(replies), (ownScore - otherScore) as real, (replies - 1) as real;
    assert Updated(rating, ownScore, otherScore, n) - rating == n * d;
    assert n * d * others == d * (n * others);
  }

  /** Appending another user's row does not change what `_cau` returns for a user. */
  lemma RatingAtAppendOther(log: seq<Entry>, e: Entry, user: int, end: Option<int>)
    requires e.user != user
    ensures RatingAt(log + [e], user, end) == RatingAt(log, user, end)
  {
    assert (log + [e])[..|log|] == log;
  }

  /**
   * Both new ratings come from the ratings read before either write.  Because
   * the two players differ, reading the second player's rating after the
   * first player's row was appended would give the same value.
   */
  lemma ReadsBeforeWrites(log: seq<Entry>, posts: seq<Post>, t: Tournament)
    requires HasRating(log, t.p1.id) && HasRating(log, t.p2.id)
    requires CountReplies(posts, t.qId) >= 2
    requires t.p1.id != t.p2.id
    ensures var r := ApplyTournament(log, posts, t);
      var after1 := log + [r[|log|]];
      HasRating(after1, t.p2.id)
      && r[|log| + 1].rating
         == Updated(CurrentRating(after1, t.p2.id), t.p2.score, t.p1.score, Normalizer(CountReplies(posts, t.qId)))
  {
    var r := ApplyTournament(log, posts, t);
    var i :| 0 <= i < |log| && log[i].user == t.p2.id;
    assert (log + [r[|log|]])[i] == log[i];
    RatingAtAppendOther(log, r[|log|], t.p2.id, None);
  }

  /** A row no earlier than any of its user's rows becomes that user's latest. */
  lemma AppendLatest(log: seq<Entry>, e: Entry)
    requires forall i :: 0 <= i < |log| && log[i].user == e.user ==> log[i].time <= e.time
    ensures LatestIndex(log + [e], e.user, None) == Some(|log|)
  {
    var r := log + [e];
    assert r[..|r| - 1] == log;
    var prev := LatestIndex(log, e.user, None);
    LatestIndexSpec(log, e.user, None);
    assert prev.Some? ==> log[prev.value].user == e.user && r[prev.value] == log[prev.value];
  }

  /**
   * When no earlier row of either player is later than the tournament, the
   * two appended rows become the players' current ratings.
   */
  lemma TournamentBecomesCurrent(log: seq<Entry>, posts: seq<Post>, t: Tournament)
    requires HasRating(log, t.p1.id) && HasRating(log, t.p2.id)
    requires CountReplies(posts, t.qId) >= 2
    requires t.p1.id != t.p2.id
    requires forall i :: 0 <= i < |log| && (log[i].user == t.p1.id || log[i].user == t.p2.id) ==>
      log[i].time <= TournamentDate(t)
    ensures var r := ApplyTournament(log, posts, t);
      RatingAt(r, t.p1.id, None) == Some(r[|log|].rating)
      && RatingAt(r, t.p2.id, None) == Some(r[|log| + 1].rating)
  {
    var r := ApplyTournament(log, posts, t);
    var e1, e2 := r[|log|], r[|log| + 1];
    var a := log + [e1];
    assert r == a + [e2];
    AppendLatest(log, e1);
    RatingAtAppendOther(a, e2, t.p1.id, None);
    forall i | 0 <= i < |a| && a[i].user == e2.user ensures a[i].time <= e2.time {
      if i < |log| {
        assert a[i] == log[i];
      }
    }
    AppendLatest(a, e2);
  }

  /** Every tournament of `feed` can be played on top of `log`. */
  ghost predicate Playable(log: seq<Entry>, posts: seq<Post>, feed: seq<Tournament>)
  {
    forall k :: 0 <= k < |feed| ==>
      HasRating(log, feed[k].p1.id) && HasRating(log, feed[k].p2.id) && CountReplies(posts, feed[k].qId) >= 2
  }

  lemma HasRatingGrows(log: seq<Entry>, r: seq<Entry>, user: int)
    requires |log| <= |r| && r[..|log|] == log
    requires HasRating(log, user)
    ensures HasRating(r, user)
  {
    var i :| 0 <= i < |log| && log[i].user == user;
    assert r[i] == r[..|log|][i];
  }

  /** After the first tournament, the rest of the feed can still be played. */
  lemma PlayableAfter(log: seq<Entry>, posts: seq<Post>, feed: seq<Tournament>)
    requires Playable(log, posts, feed) && feed != []
    ensures Playable(ApplyTournament(log, posts, feed[0]), posts, feed[1..])
  {
    var next := ApplyTournament(log, posts, feed[0]);
    forall k | 0 <= k < |feed[1..]|
      ensures HasRating(next, feed[1..][k].p1.id) && HasRating(next, feed[1..][k].p2.id)
      ensures CountReplies(posts, feed[1..][k].qId) >= 2
    {
      assert feed[1..][k] == feed[k + 1];
      HasRatingGrows(log, next, feed[k + 1].p1.id);
      HasRatingGrows(log, next, feed[k + 1].p2.id);
    }
  }

  /** One step of the replay: the tournament's rows, then the rest of the feed. */
  lemma ReplayStep(log: seq<Entry>, posts: seq<Post>, feed: seq<Tournament>)
    requires Playable(log, posts, feed) && feed != []
    ensures Playable(ApplyTournament(log, posts, feed[0]), posts, feed[1..])
    ensures Replay(log, posts, feed) == Replay(ApplyTournament(log, posts, feed[0]), posts, feed[1..])
  {
    PlayableAfter(log, posts, feed);
  }

  /**
   * The two rows `_create_cau_table` appends for a tournament, from the
   * ratings it read and the scores, are the rows `ApplyTournament` appends.
   */
  lemma TournamentRows(log: seq<Entry>, posts: seq<Post>, t: Tournament, normalizer: real, p1Cau: real, p2Cau: real)
    requires HasRating(log, t.p1.id) && HasRating(log, t.p2.id)
    requires CountReplies(posts, t.qId) >= 2
    requires normalizer == 1.0 / (CountReplies(posts, t.qId) - 1) as real
    requires p1Cau == CurrentRating(log, t.p1.id) + normalizer * (t.p1.score - t.p2.score) as real
    requires p2Cau == CurrentRating(log, t.p2.id) + normalizer * (t.p2.score - t.p1.score) as real
    ensures log + [Entry(t.p1.id, p1Cau, TournamentDate(t)), Entry(t.p2.id, p2Cau, TournamentDate(t))]
         == ApplyTournament(log, posts, t)
  {
    var n := Normalizer(CountReplies(posts, t.qId));
    assert n == normalizer;
    assert p1Cau == Updated(CurrentRating(log, t.p1.id), t.p1.score, t.p2.score, n);
    assert p2Cau == Updated(CurrentRating(log, t.p2.id), t.p2.score, t.p1.score, n);
  }

  /**
   * The loop over the feed: the tournaments are applied one after another,
   * each reading the ratings the previous ones wrote.
   */
  function Replay(log: seq<Entry>, posts: seq<Post>, feed: seq<Tournament>): (r: seq<Entry>)
    requires Playable(log, posts, feed)
    ensures |r| == |log| + 2 * |feed| && r[..|log|] == log
    decreases |feed|
  {
    if feed == [] then log
    else
      var next := ApplyTournament(log, posts, feed[0]);
      PlayableAfter(log, posts, feed);
      var r := Replay(next, posts, feed[1..]);
      assert r[..|log|] == r[..|next|][..|log|];
      r
  }

  /** Tournament `k` of the feed appends rows `|log| + 2k` and `|log| + 2k + 1`, both at its date. */
  lemma {:induction false} ReplayRow(log: seq<Entry>, posts: seq<Post>, feed: seq<Tournament>, k: nat)
    requires Playable(log, posts, feed) && k < |feed|
    ensures var r := Replay(log, posts, feed);
      && r[|log| + 2 * k].user == feed[k].p1.id && r[|log| + 2 * k + 1].user == feed[k].p2.id
      && r[|log| + 2 * k].time == TournamentDate(feed[k]) && r[|log| + 2 * k + 1].time == TournamentDate(feed[k])
    decreases k
  {
    PlayableAfter(log, posts, feed);
    var next := ApplyTournament(log, posts, feed[0]);
    var r := Replay(log, posts, feed);
    assert r == Replay(next, posts, feed[1..]);
    if k == 0 {
      assert r[..|next|] == next;
      assert r[|log|] == next[|log|] && r[|log| + 1] == next[|log| + 1];
    } else {
      ReplayRow(next, posts, feed[1..], k - 1);
      assert feed[1..][k - 1] == feed[k];
      assert |log| + 2 * k == |next| + 2 * (k - 1);
    }
  }

  /** The seed rows: rating 1500 for each row of the seed query, in its order. */
  function SeedLog(db: Db): (log: seq<Entry>)
    ensures |log| == |db.users|
  {
    var seeds := UsersWithCreationDate(db);
    seq(|seeds|, i requires 0 <= i < |seeds| => Entry(seeds[i].user, DefaultRating, seeds[i].start))
  }

  /** Every player of the feed has a seed row, and every question has two replies. */
  lemma FeedPlayable(db: Db, cutoff: Option<int>)
    ensures Playable(SeedLog(db), db.posts, UsersByTournament(db, cutoff))
  {
    var feed := UsersByTournament(db, cutoff);
    var log := SeedLog(db);
    var seeds := UsersWithCreationDate(db);
    forall k | 0 <= k < |feed|
      ensures HasRating(log, feed[k].p1.id) && HasRating(log, feed[k].p2.id)
      ensures CountReplies(db.posts, feed[k].qId) >= 2
    {
      FeedTournament(db, cutoff, feed[k]);
      SeededUser(db, feed[k].p1.id);
      SeededUser(db, feed[k].p2.id);
    }
  }

  /** A user of the database has a seed row. */
  lemma SeededUser(db: Db, id: int)
    requires IsUser(db.users, id)
    ensures HasRating(SeedLog(db), id)
  {
    var u :| u in db.users && u.id == id;
    var seeds := UsersWithCreationDate(db);
    SeedsOfUsers(db, Seed(u.id, SeedTime(u, db.posts)));
    var i :| 0 <= i < |seeds| && seeds[i] == Seed(u.id, SeedTime(u, db.posts));
    assert SeedLog(db)[i].user == id;
  }

  /** The whole `cau` table as `_create_cau_table` leaves it. */
  function BuildLog(db: Db, cutoff: Option<int>): seq<Entry>
  {
    FeedPlayable(db, cutoff);
    Replay(SeedLog(db), db.posts, UsersByTournament(db, cutoff))
  }

  predicate Plays(user: int, t: Tournament)
  {
    user == t.p1.id || user == t.p2.id
  }

  /** Each user's rows appear in non-decreasing time order. */
  ghost predicate Chronological(log: seq<Entry>)
  {
    forall i, j :: 0 <= i < j < |log| && log[i].user == log[j].user ==> log[i].time <= log[j].time
  }

  /** A tournament no earlier than its players' rows keeps the log chronological. */
  lemma ApplyChronological(log: seq<Entry>, posts: seq<Post>, t: Tournament)
    requires HasRating(log, t.p1.id) && HasRating(log, t.p2.id)
    requires CountReplies(posts, t.qId) >= 2
    requires Chronological(log)
    requires forall i :: 0 <= i < |log| && Plays(log[i].user, t) ==> log[i].time <= TournamentDate(t)
    ensures Chronological(ApplyTournament(log, posts, t))
  {
    var r := ApplyTournament(log, posts, t);
    forall i, j | 0 <= i < j < |r| && r[i].user == r[j].user ensures r[i].time <= r[j].time {
      if j < |log| {
        assert r[i] == log[i] && r[j] == log[j];
      } else if i < |log| {
        assert r[i] == log[i];
      }
    }
  }

  /**
   * Replaying a date-ordered feed keeps every user's rows in time order,
   * provided no row already in the log is later than a tournament of the
   * same user.
   */
  lemma {:induction false} ReplayChronological(log: seq<Entry>, posts: seq<Post>, feed: seq<Tournament>)
    requires Playable(log, posts, feed)
    requires Chronological(log)
    requires SortedBy(feed, TournamentDate)
    requires forall k, i :: 0 <= k < |feed| && 0 <= i < |log| && Plays(log[i].user, feed[k]) ==>
      log[i].time <= TournamentDate(feed[k])
    ensures Chronological(Replay(log, posts, feed))
    decreases |feed|
  {
    if feed != [] {
      var t := feed[0];
      PlayableAfter(log, posts, feed);
      ApplyChronological(log, posts, t);
      var next := ApplyTournament(log, posts, t);
      var rest := feed[1..];
      assert SortedBy(rest, TournamentDate) by {
        forall i, j | 0 <= i < j < |rest| ensures TournamentDate(rest[i]) <= TournamentDate(rest[j]) {
          assert rest[i] == feed[i + 1] && rest[j] == feed[j + 1];
        }
      }
      forall k, i | 0 <= k < |rest| && 0 <= i < |next| && Plays(next[i].user, rest[k])
        ensures next[i].time <= TournamentDate(rest[k])
      {
        assert rest[k] == feed[k + 1];
        if i < |log| {
          assert next[i] == log[i];
        } else {
          assert next[i].time == TournamentDate(feed[0]);
        }
      }
      ReplayChronological(next, posts, rest);
      assert Replay(log, posts, feed) == Replay(next, posts, rest);
    }
  }

  /** The seed rows are in start order, so each user's seed rows are in time order. */
  lemma SeedLogChronological(db: Db)
    ensures Chronological(SeedLog(db))
  {
    var seeds := UsersWithCreationDate(db);
    var log := SeedLog(db);
    forall i, j | 0 <= i < j < |log| ensures log[i].time <= log[j].time {
      assert log[i].time == SeedStart(seeds[i]) && log[j].time == SeedStart(seeds[j]);
    }
  }

  /** A user's seed time is no later than any tournament the user plays. */
  lemma SeedBeforeTournaments(db: Db, cutoff: Option<int>)
    ensures var feed := UsersByTournament(db, cutoff);
      var log := SeedLog(db);
      forall k, i :: 0 <= k < |feed| && 0 <= i < |log| && Plays(log[i].user, feed[k]) ==>
        log[i].time <= TournamentDate(feed[k])
  {
    var feed := UsersByTournament(db, cutoff);
    var log := SeedLog(db);
    var seeds := UsersWithCreationDate(db);
    forall k, i | 0 <= k < |feed| && 0 <= i < |log| && Plays(log[i].user, feed[k])
      ensures log[i].time <= TournamentDate(feed[k])
    {
      var t := feed[k];
      FeedTournament(db, cutoff, t);
      SeedsOfUsers(db, seeds[i]);
      var u :| u in db.users && seeds[i] == Seed(u.id, SeedTime(u, db.posts));
      if log[i].user == t.p1.id {
        var a :| a in db.posts && a.owner == t.p1.id && a.date == t.p1.date;
      } else {
        var a :| a in db.posts && a.owner == t.p2.id && a.date == t.p2.date;
      }
    }
  }

  /** Timestamps only move forward: in the built table each user's rows are in time order. */
  lemma BuildLogChronological(db: Db, cutoff: Option<int>)
    ensures Chronological(BuildLog(db, cutoff))
  {
    FeedPlayable(db, cutoff);
    SeedLogChronological(db);
    SeedBeforeTournaments(db, cutoff);
    ReplayChronological(SeedLog(db), db.posts, UsersByTournament(db, cutoff));
  }

  /** In a chronological log, `_cau` without a date returns the user's last appended row. */
  lemma LatestIsLastAppended(log: seq<Entry>, user: int)
    requires Chronological(log) && HasRating(log, user)
    ensures var r := LatestIndex(log, user, None);
      r.Some? && log[r.value].user == user && forall j :: r.value < j < |log| ==> log[j].user != user
  {
    LatestIndexSpec(log, user, None);
  }

  /** In a chronological log, the history is the user's rows in the order they were appended. */
  lemma HistoryInAppendOrder(log: seq<Entry>, user: int)
    requires Chronological(log)
    ensures HistoryEntries(log, user) == UserEntries(log, user)
  {
    UserEntriesChronological(log, user);
    SortBySorted(UserEntries(log, user), EntryTime);
  }

  lemma {:induction false} UserEntriesChronological(log: seq<Entry>, user: int)
    requires Chronological(log)
    ensures SortedBy(UserEntries(log, user), EntryTime)
    decreases |log|
  {
    if log != [] {
      var init := log[..|log| - 1];
      var last := log[|log| - 1];
      assert Chronological(init) by {
        forall i, j | 0 <= i < j < |init| && init[i].user == init[j].user
          ensures init[i].time <= init[j].time
        {
          assert init[i] == log[i] && init[j] == log[j];
        }
      }
      UserEntriesChronological(init, user);
      var es := UserEntries(init, user);
      if last.user == user {
        forall k | 0 <= k < |es| ensures es[k].time <= last.time {
          assert es[k] in es;
          var i :| 0 <= i < |init| && init[i] == es[k];
          assert log[i] == es[k];
        }
      }
    }
  }

  lemma {:induction false} UserEntriesAppend(a: seq<Entry>, b: seq<Entry>, user: int)
    ensures UserEntries(a + b, user) == UserEntries(a, user) + UserEntries(b, user)
    decreases |b|
  {
    if b == [] {
      assert a + b == a;
    } else {
      var init, last := b[..|b| - 1], b[|b| - 1];
      var tail := if last.user == user then [last] else [];
      UserEntriesAppend(a, init, user);
      assert (a + b)[..|a + b| - 1] == a + init;
      assert (a + b)[|a + b| - 1] == last;
      assert UserEntries(a + b, user) == UserEntries(a + init, user) + tail;
      assert UserEntries(b, user) == UserEntries(init, user) + tail;
    }
  }

  /** A user's first row in a log is its first row in any prefix that has one. */
  lemma FirstUserEntry(a: seq<Entry>, r: seq<Entry>, user: int)
    requires |a| <= |r| && r[..|a|] == a
    requires HasRating(a, user)
    ensures |UserEntries(a, user)| > 0
    ensures UserEntries(r, user)[0] == UserEntries(a, user)[0]
  {
    assert r == a + r[|a|..];
    UserEntriesAppend(a, r[|a|..], user);
    var i :| 0 <= i < |a| && a[i].user == user;
    assert a[i] in UserEntries(a, user);
  }

  /** Every seed row has rating 1500 and the seed time of a user with its id. */
  lemma SeedEntry(db: Db, e: Entry)
    requires e in SeedLog(db)
    ensures e.rating == DefaultRating
    ensures exists u :: u in db.users && u.id == e.user && e.time == SeedTime(u, db.posts)
  {
    var seed := SeedLog(db);
    var seeds := UsersWithCreationDate(db);
    var j :| 0 <= j < |seed| && seed[j] == e;
    SeedsOfUsers(db, seeds[j]);
  }

  /** A user without rows in a log has no entries. */
  lemma UserEntriesNone(log: seq<Entry>, user: int)
    requires forall e :: e in log ==> e.user != user
    ensures UserEntries(log, user) == []
  {
  }

  /** A user with exactly one row in a log has exactly that row as its rows. */
  lemma UserEntriesSingle(log: seq<Entry>, user: int, i: nat)
    requires i < |log| && log[i].user == user
    requires forall j :: 0 <= j < |log| && j != i ==> log[j].user != user
    ensures UserEntries(log, user) == [log[i]]
  {
    var front, upto, back := log[..i], log[..i + 1], log[i + 1..];
    assert log == upto + back;
    assert upto[..|upto| - 1] == front && upto[|upto| - 1] == log[i];
    forall e | e in front ensures e.user != user {
      var j :| 0 <= j < |front| && front[j] == e;
      assert log[j] == e;
    }
    forall e | e in back ensures e.user != user {
      var j :| 0 <= j < |back| && back[j] == e;
      assert log[i + 1 + j] == e;
    }
    UserEntriesNone(front, user);
    UserEntriesNone(back, user);
    assert UserEntries(upto, user) == [log[i]];
    UserEntriesAppend(upto, back, user);
  }

  /**
   * With unique user ids every user has exactly one seed row, 1500 at its
   * seed time, and an id that is no user's has none.
   */
  lemma SeedRowOnce(db: Db, id: int)
    requires KeysUnique(db)
    ensures IsUser(db.users, id) ==>
      exists u :: (u in db.users && u.id == id &&
        UserEntries(SeedLog(db), id) == [Entry(id, DefaultRating, SeedTime(u, db.posts))])
    ensures !IsUser(db.users, id) ==> UserEntries(SeedLog(db), id) == []
  {
    var seeds := UsersWithCreationDate(db);
    var log := SeedLog(db);
    if IsUser(db.users, id) {
      var u :| u in db.users && u.id == id;
      var seed := Seed(u.id, SeedTime(u, db.posts));
      SeedsOfUsers(db, seed);
      var i :| 0 <= i < |seeds| && seeds[i] == seed;
      SeedIdsUnique(db);
      forall j | 0 <= j < |log| && j != i ensures log[j].user != id {
        assert log[j].user == seeds[j].user;
      }
      UserEntriesSingle(log, id, i);
    } else {
      forall e | e in log ensures e.user != id {
        var j :| 0 <= j < |log| && log[j] == e;
        SeedsOfUsers(db, seeds[j]);
      }
      UserEntriesNone(log, id);
    }
  }

  /** In a chronological log the history starts with the user's first appended row. */
  lemma HistoryStart(log: seq<Entry>, user: int)
    requires Chronological(log)
    requires |UserEntries(log, user)| > 0
    ensures var h := History(log, user);
      var e := UserEntries(log, user)[0];
      |h| > 0 && h[0] == (e.rating, e.time)
  {
    HistoryInAppendOrder(log, user);
  }

  /**
   * The first row of every user's history in the built table is its seed:
   * rating 1500 at the user's seed time, the earlier of its creation date and
   * its first post.
   */
  lemma SeedFirstInHistory(db: Db, cutoff: Option<int>, id: int)
    requires IsUser(db.users, id)
    ensures var h := History(BuildLog(db, cutoff), id);
      && |h| > 0
      && h[0].0 == DefaultRating
      && exists u :: u in db.users && u.id == id && h[0].1 == SeedTime(u, db.posts)
  {
    var log := BuildLog(db, cutoff);
    var seed := SeedLog(db);
    FeedPlayable(db, cutoff);
    assert log[..|seed|] == seed;
    SeededUser(db, id);
    FirstUserEntry(seed, log, id);
    var e := UserEntries(seed, id)[0];
    assert e in UserEntries(seed, id);
    SeedEntry(db, e);
    BuildLogChronological(db, cutoff);
    HistoryStart(log, id);
  }

  /**
   * The `cau` table and the flag for whether it exists.  Until the table is
   * built it has no rows; once built, each user's rows are in time order.
   */
  class CauTable {
    var log: seq<Entry>
    var tableExists: bool

    ghost predicate Valid()
      reads this
    {
      && (!tableExists ==> log == [])
      && (tableExists ==> Chronological(log))
    }

    constructor ()
      ensures Valid() && !tableExists && log == []
    {
      log := [];
      tableExists := false;
    }

    /**
     * `_add_cau_with_date`: appends one row to the existing table.  A row out
     * of time order breaks `Valid()`; the build only appends rows in order,
     * which `CreateCauTable` proves for the whole build.
     */
    method AddCauWithDate(user: int, rating: real, date: int)
      requires tableExists
      modifies this
      ensures log == old(log) + [Entry(user, rating, date)]
      ensures tableExists == old(tableExists)
    {
      log := log + [Entry(user, rating, date)];
    }

    /**
     * `_create_cau_table`: creates the table, seeds every user, then plays
     * the feed (restricted to answers before `endDate` when given) in order.
     */
    method CreateCauTable(db: Db, endDate: Option<int>)
      requires Valid() && !tableExists
      modifies this
      ensures Valid() && tableExists
      ensures log == BuildLog(db, endDate)
    {
      tableExists := true;
      SeedUsers(db);
      assert log == SeedLog(db);
      var feed := UsersByTournament(db, endDate);
      FeedPlayable(db, endDate);
      PlayTournaments(db.posts, feed);
      BuildLogChronological(db, endDate);
    }

    /**
     * The first loop of `_create_cau_table`: a 1500 row per seed row, in seed
     * order.  It is a step of `CreateCauTable`, which restores `Valid()` at the
     * end of the build.
     */
    method SeedUsers(db: Db)
      requires tableExists
      modifies this
      ensures log == old(log) + SeedLog(db)
      ensures tableExists == old(tableExists)
    {
      var users := UsersWithCreationDate(db);
      ghost var seedLog := SeedLog(db);
      var i := 0;
      while i < |users|
        invariant 0 <= i <= |users|
        invariant tableExists == old(tableExists)
        invariant log == old(log) + seedLog[..i]
      {
        AddCauWithDate(users[i].user, DefaultRating, users[i].start);
        assert seedLog[..i + 1] == seedLog[..i] + [seedLog[i]];
        i := i + 1;
      }
      assert seedLog[..i] == seedLog;
    }

    /**
     * The body of the tournament loop up to the writes: the reply count, the
     * normaliser, both players' prior ratings and their new ratings.  The two
     * rows it leads to are the rows of one tournament.
     */
    method NewRatings(posts: seq<Post>, t: Tournament) returns (p1Cau: real, p2Cau: real)
      requires HasRating(log, t.p1.id) && HasRating(log, t.p2.id)
      requires CountReplies(posts, t.qId) >= 2
      ensures log + [Entry(t.p1.id, p1Cau, TournamentDate(t)), Entry(t.p2.id, p2Cau, TournamentDate(t))]
           == ApplyTournament(log, posts, t)
    {
      var replies := CountReplies(posts, t.qId);
      var normalizer := 1.0 / (replies - 1) as real;

      RatingFound(log, t.p1.id);
      RatingFound(log, t.p2.id);
      p1Cau := RatingAt(log, t.p1.id, None).value;
      p2Cau := RatingAt(log, t.p2.id, None).value;

      p1Cau := p1Cau + normalizer * (t.p1.score - t.p2.score) as real;
      p2Cau := p2Cau + normalizer * (t.p2.score - t.p1.score) as real;
      TournamentRows(log, posts, t, normalizer, p1Cau, p2Cau);
    }

    /**
     * The second loop of `_create_cau_table`: each tournament reads both
     * players' ratings, computes both updates and appends both rows.  Like
     * `SeedUsers` it is a step of `CreateCauTable`, which proves `Valid()`
     * for the finished table.
     */
    method PlayTournaments(posts: seq<Post>, feed: seq<Tournament>)
      requires tableExists
      requires Playable(log, posts, feed)
      modifies this
      ensures log == Replay(old(log), posts, feed)
      ensures tableExists == old(tableExists)
    {
      var rest := feed;
      while rest != []
        invariant tableExists == old(tableExists)
        invariant Playable(log, posts, rest)
        invariant Replay(log, posts, rest) == Replay(old(log), posts, feed)
        decreases |rest|
      {
        var t := rest[0];
        ReplayStep(log, posts, rest);
        ghost var next := ApplyTournament(log, posts, t);
        ghost var later := rest[1..];
        assert Playable(next, posts, later) && Replay(next, posts, later) == Replay(old(log), posts, feed);

        var p1Cau, p2Cau := NewRatings(posts, t);
        var tournamentDate := TournamentDate(t);

        AddCauWithDate(t.p1.id, p1Cau, tournamentDate);
        AddCauWithDate(t.p2.id, p2Cau, tournamentDate);
        assert log == next;
        rest := rest[1..];
      }
    }

    /**
     * `cau`: builds the table if it does not exist yet, then returns the
     * user's rating at `endDate` (or the latest).  A table that exists is
     * never rebuilt.
     */
    method Cau(db: Db, userId: int, endDate: Option<int>) returns (r: Option<real>)
      requires Valid()
      modifies this
      ensures Valid() && tableExists
      ensures old(tableExists) ==> log == old(log)
      ensures !old(tableExists) ==> log == BuildLog(db, endDate)
      ensures r == RatingAt(log, userId, endDate)
    {
      if !tableExists {
        CreateCauTable(db, endDate);
      }
      r := RatingAt(log, userId, endDate);
    }

    /**
     * `cau_history`: builds the table if it does not exist yet, then returns
     * the user's (rating, time) rows in ascending time order, which in a built
     * table is the order they were appended.
     */
    method CauHistory(db: Db, userId: int, endDate: Option<int>) returns (h: seq<(real, int)>)
      requires Valid()
      modifies this
      ensures Valid() && tableExists
      ensures old(tableExists) ==> log == old(log)
      ensures !old(tableExists) ==> log == BuildLog(db, endDate)
      ensures h == History(log, userId)
      ensures HistoryEntries(log, userId) == UserEntries(log, userId)
    {
      if !tableExists {
        CreateCauTable(db, endDate);
      }
      h := History(log, userId);
      HistoryInAppendOrder(log, userId);
    }
  }
}
