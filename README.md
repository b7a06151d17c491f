# CAU ratings, lifetime percentiles and classifier scoring, in Dafny

This project models three parts of a Stack Exchange expertise study.

- **The CAU rating engine** (`cau.py`). The `cau` table is an append-only log of (user, rating, time) rows. Building it works in two steps:
  - every user is seeded with a rating of 1500 at the earlier of its creation date and its first post;
  - every *tournament* is then replayed in order of its date. A tournament is a pair of answers by two different users to the same question, and it is decided at the later of the two answer dates.

  Each tournament reads both players' current ratings. It then appends, for each player, the old rating plus the score difference divided by the number of other answers to the question. `cau` and `cau_history` build the table on first use and then read a user's latest rating (optionally at or before a date) or the user's whole history.
- **`percentile_normalization`** (`metrics.py`). It returns the end times of the eleven lifetime percentiles 0%, 10%, …, 100% of a user, read off the user's sorted post dates, with the creation date before the first post.
- **The scoring half of `logistic_test`** (`ml.py`). It counts true/false positives/negatives over the zipped predicted and actual labels, then computes accuracy, precision and recall.

Modules:

| module | file | contents |
|---|---|---|
| `Wrappers` | `wrappers.dfy` | `Option`: a SQL NULL, or a query that found no row |
| `Sorting` | `sorting.dfy` | an insertion sort on an integer key, standing for `ORDER BY` |
| `CauQueries` | `cau_queries.dfy` | the `se_user` and `Post` rows, the tournament feed, the seed query and `count_replies_to_post`, each as a function |
| `Cau` | `cau.dfy` | the log and its pure operations: `_cau` as `RatingAt`, `_cau_history` as `History`, one tournament, the replay of the feed. Also the class `CauTable`, whose methods run the source's loops over a `log` field and a `tableExists` flag |
| `Metrics` | `metrics.dfy` | `percentile_normalization`: its loop as a method, and the vector it computes as a function |
| `Ml` | `ml.dfy` | the counting loop as a method, the counts as a function, and the three statistics |

Choices the source leaves open, fixed here:

- **Ties in `ORDER BY`.** The feed and `_cau_history` are sorted by an insertion sort that places each row after the rows already placed with an equal key. The property proved about it is that input already in key order comes back unchanged, which is what the history lemmas need. `_cau` takes the row with the greatest time and, among equal times, the row appended last (see Findings).
- **The feed join.** It yields one row for each pair of positions in the post list whose two posts meet the join and WHERE conditions, and the proved row count is the number of such pairs. When post ids are unique (`CauQueries.KeysUnique`, the primary key), each pair of positions is a distinct pair of posts, so this is also the number of rows the SQL join returns.
- **Numbers.** Ratings are `real`: the source's floating point is idealised. Timestamps are integers.
- **`int(len(posts) * i * 0.1)`** is taken as `(len(posts) * i) / 10`, i.e. the exact product, truncated.
- **Failures as `None`.** The source crashes where a query finds no row: `fetchone()[0]` on no row, or `[0]` on an empty list. It also crashes on the division by zero in `accuracy` when nothing was counted. Each of these is an `Option` result here. Where the model proves the case cannot arise, it says so: `RatingFound` shows the build's rating reads always find a row, and `FeedTournament` shows every tournament's question has at least two replies, so `1.0 / (replies - 1)` is defined.
- **Seed dates.** A user's seed row is dated `LEAST(creation date, post dates)`, so it can be earlier than the account's creation date when a post predates it.
- **Cutoffs.** The feed's cutoff is exclusive (`creation_date < end_date`), while `_cau`'s is inclusive (`time <= end_date`).

## Model

| member | source | states |
|---|---|---|
| `Sorting.SortBy` | cau.py:235 | the ordered rows are a permutation of the input, sorted by the key |
| `Sorting.SortBySorted` | cau.py:145 | input already in key order comes back unchanged |
| `Sorting.SortByMembers` | cau.py:199 | a row is in the ordered result exactly when it is in the input |
| `CauQueries.TournamentDate` | cau.py:96 | the tournament date is the later of the two answer dates: at least both, and equal to one |
| `CauQueries.JoinWith` | cau.py:221-234 | the rows one answer `a1` joins with: a row is there exactly when it comes from `a1` and a post meeting every join and WHERE condition with it, and there is one row per such post position |
| `CauQueries.Join` | cau.py:221-234 | a row is in the join exactly when it comes from two posts meeting every join and WHERE condition, and the join has exactly one row per pair of post positions meeting them |
| `CauQueries.UsersByTournament` | cau.py:203-260 | the feed is ordered by tournament date, is a permutation of the joined rows, and has one tournament per pair of post positions meeting the join conditions |
| `CauQueries.FeedRows` | cau.py:221-260 | a tournament is in the feed exactly when some pair of answers to one question produces it |
| `CauQueries.CountReplies` | search_utilities.py:74-87 | the reply count is the number of posts whose parent is the given post |
| `CauQueries.TwoRepliesCounted` | search_utilities.py:82-86 | two different answers to a question make its reply count at least two |
| `CauQueries.FeedTournament` | cau.py:221-260 | every feed tournament has two different players who are both users, at least two replies to its question, both answers before the cutoff, and each player's date is the date of one of that player's posts |
| `CauQueries.SeedTime` | cau.py:192-197 | the seed time is no later than the creation date or any of the user's post dates, and equals one of them |
| `CauQueries.UsersWithCreationDate` | cau.py:183-201 | as many seed rows as users, ordered by start time |
| `CauQueries.SeedIdsUnique` | cau.py:192-199 | with unique user ids, no two seed rows belong to the same user, as `GROUP BY bar.id` gives |
| `CauQueries.SeedsOfUsers` | cau.py:192-199 | a seed row is in the result exactly when it belongs to a user, with that user's seed time |
| `Cau.LatestIndex` | cau.py:164-181 | the row `_cau`'s `ORDER BY time DESC LIMIT 1` picks; `Cau.LatestIndexSpec` states which |
| `Cau.RatingAt` | cau.py:150-181 | `_cau`: the rating of the row `LatestIndex` picks, `None` where `fetchone()` finds no row; `Cau.RatingAtLatest` states what it returns |
| `Cau.MayReturn` | cau.py:164-181 | the query as written: any visible row that no visible row is later than may be returned, ties unresolved |
| `Cau.LatestIndexSpec` | cau.py:164-181 | no row is found exactly when the user has no row (at or before the date); otherwise the row found is visible, no visible row is later, and among equal times it is the last appended |
| `Cau.RatingAtLatest` | cau.py:150-181 | `_cau` fails exactly when the user has no visible row; otherwise it returns a rating the query may return |
| `Cau.TieLogRows` | cau.py:89-108 | two tournaments of one question, decided at the same date and shared by one player, give that player two rows at that time (1510, then 1505) |
| `Cau.StaleReadOnTie` | cau.py:164-170 | on the log those two tournaments build, the query may return the older of the player's two ratings, while `RatingAt` returns the one written last |
| `Cau.RatingFound` | cau.py:99-100 | a user with a row has a rating, so the build's reads never fail |
| `Cau.CurrentRating` | cau.py:99-100 | the build's read of a player's rating (`_cau` without a date), defined because `Cau.RatingFound` shows it finds a row |
| `Cau.UserEntries` | cau.py:142-145 | the user's rows are exactly the log rows with that user id |
| `Cau.HistoryEntries` | cau.py:142-148 | the history is a permutation of the user's rows, sorted by time |
| `Cau.History` | cau.py:132-148 | `_cau_history`: the (rating, time) pairs of the history rows; `Cau.HistoryShape` and `Cau.HistoryInAppendOrder` state what it holds |
| `Cau.HistoryEntriesOfUser` | cau.py:142-148 | the history has one row per row of the user, and each is a row of the log with that user id |
| `Cau.HistoryShape` | cau.py:132-148 | `_cau_history` gives one (rating, time) pair per user row, ascending in time, each from a row of that user |
| `Cau.Normalizer` | cau.py:92-93 | the normaliser lies in (0, 1] and times the number of other answers is 1 |
| `Cau.ApplyTournament` | cau.py:89-108 | a tournament keeps the log as a prefix and appends the two players' rows, in order, at the tournament date, each rating the update rule applied to that player's current rating with the normaliser of the question's reply count |
| `Cau.Updated` | cau.py:103-104 | the update rule: old rating plus normaliser times the score difference; `Cau.UpdatedAdvantage` and `Cau.ZeroSum` give its meaning |
| `Cau.UpdatedAdvantage` | cau.py:93-104 | a player's change, times the number of other answers to the question, is its score advantage over the other player |
| `Cau.ZeroSum` | cau.py:103-104 | each tournament is zero-sum: the two new ratings add up to the two old ones |
| `Cau.ReadsBeforeWrites` | cau.py:99-108 | the second player's new rating is the same whether read before or after the first player's row is written |
| `Cau.TournamentBecomesCurrent` | cau.py:96-108 | when neither player has a later row, the two appended rows become their current ratings |
| `Cau.RatingAtAppendOther` | cau.py:107-108 | appending another user's row leaves a user's rating unchanged |
| `Cau.TournamentRows` | cau.py:91-108 | the rows the loop body appends, from the ratings it read, are the rows of one tournament |
| `Cau.Replay` | cau.py:78-110 | replaying the feed keeps the log as a prefix and appends two rows per tournament |
| `Cau.ReplayStep` | cau.py:79-110 | after one tournament the rest of the feed can still be played, and replaying the whole feed is that tournament followed by the replay of the rest |
| `Cau.ApplyChronological` | cau.py:96-108 | a tournament no earlier than either player's rows keeps every user's rows in time order |
| `Cau.ReplayRow` | cau.py:79-108 | tournament k of the feed appends rows 2k and 2k+1 past the start, for its two players, at its date |
| `Cau.SeedLog` | cau.py:72-76 | as many seed rows as users |
| `Cau.SeedEntry` | cau.py:72-76 | every seed row has rating 1500 and the seed time of a user with its id |
| `Cau.SeedRowOnce` | cau.py:72-76 | with unique user ids, every user has exactly one seed row, 1500 at its seed time, and an id that is no user's has none |
| `Cau.SeededUser` | cau.py:72-76 | every user of the database has a seed row |
| `Cau.FeedPlayable` | cau.py:73-100 | every tournament of the feed can be played on the seeded log: both players have a row and the question has two replies |
| `Cau.ReplayChronological` | cau.py:78-110 | replaying a date-ordered feed keeps each user's rows in time order |
| `Cau.SeedBeforeTournaments` | cau.py:192-199 | a user's seed time is no later than any tournament the user plays |
| `Cau.BuildLog` | cau.py:56-111 | the table `_create_cau_table` leaves: the seed rows, then the replay of the feed; `Cau.BuildLogChronological` and `Cau.SeedFirstInHistory` state its properties |
| `Cau.BuildLogChronological` | cau.py:56-111 | in the built table, each user's rows are in time order |
| `Cau.LatestIsLastAppended` | cau.py:164-170 | in a chronological log, `_cau` without a date returns the user's last appended row |
| `Cau.HistoryInAppendOrder` | cau.py:142-148 | in a chronological log, the history is the user's rows in append order |
| `Cau.SeedFirstInHistory` | cau.py:72-76 | in the built table every user's history starts with its seed row: rating 1500 at its seed time |
| `Cau.CauTable.constructor` | cau.py:44-54 | before the table exists, it has no rows |
| `Cau.CauTable.AddCauWithDate` | cau.py:113-130 | appends exactly one row and changes nothing else |
| `Cau.CauTable.CreateCauTable` | cau.py:56-111 | afterwards the table exists, holds the seed rows followed by the replayed feed, and each user's rows are in time order |
| `Cau.CauTable.SeedUsers` | cau.py:72-76 | appends the seed rows in seed order |
| `Cau.CauTable.NewRatings` | cau.py:89-104 | the two ratings the loop body computes are those of the rows one tournament appends |
| `Cau.CauTable.PlayTournaments` | cau.py:78-110 | appends exactly the replay of the feed on the table as it was |
| `Cau.CauTable.Cau` | cau.py:7-18 | builds the table only if it does not exist, then returns `_cau`'s answer for the user and date |
| `Cau.CauTable.CauHistory` | cau.py:20-30 | builds the table only if it does not exist, then returns the user's history, which is in append order |
| `Metrics.PercentileIndex` | metrics.py:37 | the index is the floor of len × i / 10: 0 for the first percentile and len for the last |
| `Metrics.PercentileTime` | metrics.py:36-42 | one loop step: the creation date when the index is 0, else the post at that index; `Metrics.PercentileTimes` states the vector |
| `Metrics.PercentileTimes` | metrics.py:26-43 | eleven entries; the first is the creation date; all are the creation date when there are no posts; otherwise the last is the latest post; every entry is the creation date or a post date |
| `Metrics.PercentileNormalization` | metrics.py:26-43 | no result exactly when the user has no creation date; otherwise the loop's vector is `PercentileTimes` |
| `Metrics.PercentileIndexMonotone` | metrics.py:36-37 | a larger percentile never covers fewer posts |
| `Metrics.PercentileTimesOrdered` | metrics.py:30-42 | with ascending post dates, entries taken from posts never decrease; if the user was created no later than its first post, the whole vector is ascending |
| `Ml.Pairs` | ml.py:35 | `zip` yields as many pairs as the shorter sequence |
| `Ml.Tally` | ml.py:36-43 | a pair of two binary labels moves exactly one counter by one; any other pair moves none |
| `Ml.ConfusionOf` | ml.py:34-43 | the counters after the first `n` pairs; `Ml.ConfusionOfCounts` and `Ml.ConfusionOfTotal` state what they count |
| `Ml.ConfusionOfCounts` | ml.py:34-43 | after the first `n` pairs, each counter is the number of those pairs of its kind |
| `Ml.ConfusionOfTotal` | ml.py:34-43 | after the first `n` pairs the counters sum to at most `n`, and to exactly `n` if and only if those pairs are all binary |
| `Ml.Confusions` | ml.py:34-43 | the counters after all zipped pairs; `Ml.ConfusionsCount` and `Ml.ConfusionsTotal` state what they count |
| `Ml.CountOutcomes` | ml.py:34-43 | the loop's counters are the counts of the zipped labels |
| `Ml.ConfusionsCount` | ml.py:34-43 | tp, tn, fp and fn are the numbers of pairs (1,1), (0,0), (1,0) and (0,1) |
| `Ml.ConfusionsTotal` | ml.py:35-43 | the counters sum to at most the number of pairs, and to exactly that number if and only if every pair holds two binary labels |
| `Ml.Accuracy` | ml.py:46 | undefined exactly when nothing was counted; otherwise in [0, 1], and times the total it gives tp + tn |
| `Ml.Precision` | ml.py:47 | in [0, 1]; times tp + fp it gives tp when that sum is positive; 0 exactly when tp is 0; 1 exactly when tp > 0 and fp = 0 |
| `Ml.Recall` | ml.py:48 | in [0, 1]; times tp + fn it gives tp when that sum is positive; 0 exactly when tp is 0; 1 exactly when tp > 0 and fn = 0 |
| `Ml.LogisticTest` | ml.py:33-57 | returns the accuracy of the counted labels, and no result exactly when nothing was counted |

## Left out

- Database plumbing (connections, cursors, `commit`, `CREATE TABLE`, the `information_schema` lookup) is not modelled. The table is the `log` field of `CauTable`, and whether it exists is the `tableExists` flag.
- Commits per tournament, and a build interrupted part-way (which leaves a partial table that the next call would reuse), are not modelled.
- `print` statements are left out.
- Cau.CauTable.CreateCauTable: requires that the table does not exist yet. Both callers check this first. Called on an existing table, the source would append a second seed and replay.
- The table is built once, with the `end_date` of the first call; later calls reuse it whatever date they pass. The model states this (`old(tableExists) ==> log == old(log)`) but does not treat it as an error.
- Ratings and the normaliser are exact reals. Floating-point rounding in `double precision` and Python floats is not modelled.
- Metrics.PercentileIndex: uses the exact product `len * i / 10` where the source multiplies by the float `i * 0.1`, which can differ when the product rounds across an integer.
- The feed join yields one row per pair of post positions. It equals the SQL result when post and user ids are unique. Duplicate ids would multiply rows in SQL, and the model does not follow that.
- The seed query is modelled with one row per `se_user` row. `GROUP BY bar.id` merges rows with the same id, so the two agree when user ids are unique (the primary key), which is what `CauQueries.SeedIdsUnique` and `Cau.SeedRowOnce` assume.
- The post types of `percentile_normalization`'s query and the query itself are not modelled: its two query results are the method's inputs. The post dates are assumed in the ascending order the query returns; the ordering lemma requires it.
- The classifier fitting in `logistic_test` (`LogisticRegression`, the `cv` branch naming the never-imported `LogisticRegressionCV`) is not modelled: the predicted labels are an input. Labels are integers.
- Ml.LogisticTest: precision and recall only feed the printed report. They are the functions `Ml.Precision` and `Ml.Recall`; the method returns only the accuracy, as the source does.
- Elo ratings (`elo.py`) are not part of this model: that file is a scraper of an external site, not a rating engine.
- The snap graph code (`data_graph.py`, `graph2.py`, `graph_utilities.py`) wraps a library outside the repository and is not part of this model.
- Also not part of this model: PCA, plotting, feature extraction and sampling (`pca.py`, `plotting.py`, `feature_extractor.py`, `sample_nonexperts.py`, `plot_pca`), and the other `metrics` functions that the rest of the code calls but `metrics.py` does not define.

## Findings

| source | as written | input that shows it | evidently intended | confidence | as-written member | corrected member |
|---|---|---|---|---|---|---|
| cau.py:164-181 | `ORDER BY time DESC LIMIT 1` leaves the choice among rows with equal times to the database | a user who answers a question last, after two others, plays two tournaments at the same date and gets two rows at that time (ratings 1510, then 1505; `Cau.TieLogRows` derives them from the seed rows with `Cau.ApplyTournament`). The next read of the user's rating after both (a third tournament at that date, a later tournament, or `cau` for the user) may yield 1510 | the rating written last is the current rating | medium, not executed; depends on the database's plan | `Cau.StaleReadOnTie` (with `Cau.MayReturn`) | `Cau.RatingAt`, with `Cau.LatestIndexSpec` and `Cau.LatestIsLastAppended` |
