/**
 * The database side of the CAU rating engine: the rows of `se_user` and
 * `Post`, and the three queries the engine runs against them, each written as
 * a function over those rows.
 *
 *  - `UsersByTournament`: the tournament feed (`_users_by_tournament`), every
 *    pair of answers by two different users to the same question, ordered by
 *    the later of the two answer dates;
 *  - `UsersWithCreationDate`: the seed list (`_users_with_creation_date`), one
 *    row per user with the earliest of its creation date and its post dates;
 *  - `CountReplies`: `count_replies_to_post`, the number of posts whose parent
 *    is a given post.
 */
module CauQueries {
  import opened Wrappers
  import opened Sorting

  /** A row of `se_user`: its id and its account creation date. */
  datatype User = User(id: int, created: int)

  /**
   * A row of `Post`.  `parent` is `parent_id` (an answer's question), `None`
   * for SQL NULL.  Dates are timestamps as integers.
   */
  datatype Post = Post(id: int, owner: int, score: int, date: int, parent: Option<int>)

  datatype Db = Db(users: seq<User>, posts: seq<Post>)

  /** The primary keys of both tables: no two users and no two posts share an id. */
  ghost predicate KeysUnique(db: Db)
  {
    && (forall i, j :: 0 <= i < j < |db.users| ==> db.users[i].id != db.users[j].id)
    && (forall i, j :: 0 <= i < j < |db.posts| ==> db.posts[i].id != db.posts[j].id)
  }

  /** One side of a tournament: the answer author, the answer's score and its date. */
  datatype PlayerResult = PlayerResult(id: int, score: int, date: int)

  /** Two players who answered the question `qId`. */
  datatype Tournament = Tournament(p1: PlayerResult, p2: PlayerResult, qId: int)

  /** `GREATEST(a1.creation_date, a2.creation_date)`: when the tournament is decided. */
  function TournamentDate(t: Tournament): (d: int)
    ensures d >= t.p1.date && d >= t.p2.date
    ensures d == t.p1.date || d == t.p2.date
  {
    if t.p1.date >= t.p2.date then t.p1.date else t.p2.date
  }

  predicate IsUser(users: seq<User>, id: int)
  {
    exists u :: u in users && u.id == id
  }

  predicate IsPost(posts: seq<Post>, id: int)
  {
    exists q :: q in posts && q.id == id
  }

  /**
   * The join and WHERE conditions of the feed query for answers `a1` and `a2`:
   * both children of one existing post `q`, both owned by users, `a1.id <
   * a2.id`, different owners, and with a cutoff both answers strictly before it.
   */
  predicate Paired(db: Db, cutoff: Option<int>, a1: Post, a2: Post)
  {
    && a1.parent.Some?
    && a2.parent == a1.parent
    && IsPost(db.posts, a1.parent.value)
    && IsUser(db.users, a1.owner)
    && IsUser(db.users, a2.owner)
    && a1.id < a2.id
    && a1.owner != a2.owner
    && (cutoff.Some? ==> a1.date < cutoff.value && a2.date < cutoff.value)
  }

  /** The row the query selects for a pair of answers. */
  function Row(a1: Post, a2: Post): Tournament
    requires a1.parent.Some?
  {
    Tournament(PlayerResult(a1.owner, a1.score, a1.date),
               PlayerResult(a2.owner, a2.score, a2.date),
               a1.parent.value)
  }

  /** The positions in `a2s` of the answers that pair with `a1`. */
  ghost function PartnerPositions(db: Db, cutoff: Option<int>, a1: Post, a2s: seq<Post>): set<int>
  {
    set j | 0 <= j < |a2s| && Paired(db, cutoff, a1, a2s[j])
  }

  /** Removing the last answer removes at most its own position. */
  lemma PartnerPositionsInit(db: Db, cutoff: Option<int>, a1: Post, a2s: seq<Post>)
    requires a2s != []
    ensures var init, last := a2s[..|a2s| - 1], a2s[|a2s| - 1];
      PartnerPositions(db, cutoff, a1, a2s)
        == PartnerPositions(db, cutoff, a1, init) + (if Paired(db, cutoff, a1, last) then {|a2s| - 1} else {})
  {
    var init := a2s[..|a2s| - 1];
    forall j | 0 <= j < |init| ensures init[j] == a2s[j] { }
  }

  /**
   * The rows with first answer `a1` and second answer drawn from `a2s`, in
   * order: one row per answer that pairs with `a1`.
   */
  function JoinWith(db: Db, cutoff: Option<int>, a1: Post, a2s: seq<Post>): (r: seq<Tournament>)
    ensures forall t :: t in r <==>
      exists a2 :: a2 in a2s && Paired(db, cutoff, a1, a2) && t == Row(a1, a2)
    ensures |r| == |PartnerPositions(db, cutoff, a1, a2s)|
    decreases |a2s|
  {
    if a2s == [] then []
    else
      var init, last := a2s[..|a2s| - 1], a2s[|a2s| - 1];
      assert a2s == init + [last];
      assert forall a2 :: a2 in a2s <==> a2 in init || a2 == last;
      PartnerPositionsInit(db, cutoff, a1, a2s);
      JoinWith(db, cutoff, a1, init) + (if Paired(db, cutoff, a1, last) then [Row(a1, last)] else [])
  }

  /** The pairs of positions, first answer in `a1s` and second in all posts, that the query joins. */
  ghost function PairPositions(db: Db, cutoff: Option<int>, a1s: seq<Post>): set<(int, int)>
  {
    set i, j | 0 <= i < |a1s| && 0 <= j < |db.posts| && Paired(db, cutoff, a1s[i], db.posts[j]) :: (i, j)
  }

  /** The members of `s` below `n`. */
  ghost function Below(s: set<int>, n: nat): set<int>
  {
    set j | 0 <= j < n && j in s
  }

  /** The members of `s` below `n`, each paired with `k`. */
  ghost function TaggedBelow(k: int, s: set<int>, n: nat): set<(int, int)>
  {
    set j | 0 <= j < n && j in s :: (k, j)
  }

  lemma BelowStep(s: set<int>, n: nat)
    requires n > 0
    ensures Below(s, n) == Below(s, n - 1) + (if n - 1 in s then {n - 1} else {})
    ensures n - 1 !in Below(s, n - 1)
  {
  }

  lemma TaggedBelowStep(k: int, s: set<int>, n: nat)
    requires n > 0
    ensures TaggedBelow(k, s, n) == TaggedBelow(k, s, n - 1) + (if n - 1 in s then {(k, n - 1)} else {})
    ensures (k, n - 1) !in TaggedBelow(k, s, n - 1)
  {
    var before := TaggedBelow(k, s, n - 1);
    var extra: set<(int, int)> := if n - 1 in s then {(k, n - 1)} else {};
    forall p | p in TaggedBelow(k, s, n) ensures p in before + extra {
      var j :| 0 <= j < n && j in s && p == (k, j);
      if j < n - 1 {
        assert p in before;
      }
    }
  }

  /** Pairing the members of `s` below `n` with one fixed first component keeps their number. */
  lemma {:induction false} TaggedSize(k: int, s: set<int>, n: nat)
    ensures |TaggedBelow(k, s, n)| == |Below(s, n)|
    decreases n
  {
    if n == 0 {
      assert TaggedBelow(k, s, n) == {} && Below(s, n) == {};
    } else {
      TaggedSize(k, s, n - 1);
      BelowStep(s, n);
      TaggedBelowStep(k, s, n);
    }
  }

  /** The pairs started by the last first answer are those of its partners, and no earlier pair. */
  lemma PairPositionsSplit(db: Db, cutoff: Option<int>, a1s: seq<Post>)
    requires a1s != []
    ensures var k := |a1s| - 1;
      var partners := PartnerPositions(db, cutoff, a1s[k], db.posts);
      && PairPositions(db, cutoff, a1s)
           == PairPositions(db, cutoff, a1s[..k]) + TaggedBelow(k, partners, |db.posts|)
      && PairPositions(db, cutoff, a1s[..k]) !! TaggedBelow(k, partners, |db.posts|)
  {
    var k := |a1s| - 1;
    var init := a1s[..k];
    forall i | 0 <= i < |init| ensures init[i] == a1s[i] { }
  }

  /** Removing the last first answer removes exactly the pairs it starts. */
  lemma PairPositionsInit(db: Db, cutoff: Option<int>, a1s: seq<Post>)
    requires a1s != []
    ensures var init, last := a1s[..|a1s| - 1], a1s[|a1s| - 1];
      |PairPositions(db, cutoff, a1s)|
        == |PairPositions(db, cutoff, init)| + |PartnerPositions(db, cutoff, last, db.posts)|
  {
    var k := |a1s| - 1;
    var partners := PartnerPositions(db, cutoff, a1s[k], db.posts);
    PairPositionsSplit(db, cutoff, a1s);
    TaggedSize(k, partners, |db.posts|);
    assert Below(partners, |db.posts|) == partners;
  }

  /**
   * The unordered join: every pair of answers drawn from `a1s` and all posts
   * that meets the query's conditions, one row per pair of positions (which
   * is the SQL result when post and user ids are keys).
   */
  function Join(db: Db, cutoff: Option<int>, a1s: seq<Post>): (r: seq<Tournament>)
    ensures forall t :: t in r <==>
      exists a1, a2 :: a1 in a1s && a2 in db.posts && Paired(db, cutoff, a1, a2) && t == Row(a1, a2)
    ensures |r| == |PairPositions(db, cutoff, a1s)|
    decreases |a1s|
  {
    if a1s == [] then
      assert PairPositions(db, cutoff, a1s) == {};
      []
    else
      var init, last := a1s[..|a1s| - 1], a1s[|a1s| - 1];
      assert a1s == init + [last];
      PairPositionsInit(db, cutoff, a1s);
      Join(db, cutoff, init) + JoinWith(db, cutoff, last, db.posts)
  }

  /** `_users_by_tournament`: the joined rows, ordered by tournament date. */
  function UsersByTournament(db: Db, cutoff: Option<int>): (feed: seq<Tournament>)
    ensures SortedBy(feed, TournamentDate)
    ensures multiset(feed) == multiset(Join(db, cutoff, db.posts))
    ensures |feed| == |PairPositions(db, cutoff, db.posts)|
  {
    SortBy(Join(db, cutoff, db.posts), TournamentDate)
  }

  /** The feed holds exactly the rows of the query, each pair of answers to one question. */
  lemma FeedRows(db: Db, cutoff: Option<int>, t: Tournament)
    ensures t in UsersByTournament(db, cutoff) <==>
      exists a1, a2 :: a1 in db.posts && a2 in db.posts && Paired(db, cutoff, a1, a2) && t == Row(a1, a2)
  {
    SortByMembers(Join(db, cutoff, db.posts), TournamentDate, t);
  }

  /** The positions of the posts whose parent is `postId`. */
  ghost function ReplyPositions(posts: seq<Post>, postId: int): set<int>
  {
    set k | 0 <= k < |posts| && posts[k].parent == Some(postId)
  }

  /** Removing the last post removes at most its own position. */
  lemma ReplyPositionsInit(posts: seq<Post>, postId: int)
    requires posts != []
    ensures var init, last := posts[..|posts| - 1], posts[|posts| - 1];
      ReplyPositions(posts, postId)
        == ReplyPositions(init, postId) + (if last.parent == Some(postId) then {|posts| - 1} else {})
  {
    var init := posts[..|posts| - 1];
    forall k | 0 <= k < |init| ensures init[k] == posts[k] { }
  }

  /** `count_replies_to_post`: the number of posts whose parent is `postId`. */
  function CountReplies(posts: seq<Post>, postId: int): (n: nat)
    ensures n == |ReplyPositions(posts, postId)|
    decreases |posts|
  {
    if posts == [] then 0
    else
      ReplyPositionsInit(posts, postId);
      var init := posts[..|posts| - 1];
      (if posts[|posts| - 1].parent == Some(postId) then 1 else 0) + CountReplies(init, postId)
  }

  /** Two different answers to a question make at least two replies. */
  lemma TwoRepliesCounted(posts: seq<Post>, postId: int, a1: Post, a2: Post)
    requires a1 in posts && a2 in posts && a1 != a2
    requires a1.parent == Some(postId) && a2.parent == Some(postId)
    ensures CountReplies(posts, postId) >= 2
  {
    var replies := ReplyPositions(posts, postId);
    var i :| 0 <= i < |posts| && posts[i] == a1;
    var j :| 0 <= j < |posts| && posts[j] == a2;
    assert {i, j} <= replies;
    assert |{i, j}| == 2;
  }

  /**
   * What every tournament of the feed satisfies: two different users, both
   * users of the database, at least two replies to the question (so the
   * normaliser `1 / (replies - 1)` is defined), both answers before the cutoff,
   * and each player's date is the date of one of that player's posts.
   */
  lemma FeedTournament(db: Db, cutoff: Option<int>, t: Tournament)
    requires t in UsersByTournament(db, cutoff)
    ensures t.p1.id != t.p2.id
    ensures IsUser(db.users, t.p1.id) && IsUser(db.users, t.p2.id)
    ensures CountReplies(db.posts, t.qId) >= 2
    ensures cutoff.Some? ==> t.p1.date < cutoff.value && t.p2.date < cutoff.value
    ensures exists a :: a in db.posts && a.owner == t.p1.id && a.date == t.p1.date
    ensures exists a :: a in db.posts && a.owner == t.p2.id && a.date == t.p2.date
  {
    FeedRows(db, cutoff, t);
    var a1, a2 :| a1 in db.posts && a2 in db.posts && Paired(db, cutoff, a1, a2) && t == Row(a1, a2);
    TwoRepliesCounted(db.posts, t.qId, a1, a2);
  }

  /**
   * The seed time of a user: `MIN(LEAST(u.creation_date, p.creation_date))`
   * over the user's posts.  A user without posts keeps its creation date (the
   * outer join gives NULL, which LEAST ignores).
   */
  function SeedTime(u: User, posts: seq<Post>): (r: int)
    ensures r <= u.created
    ensures forall p :: p in posts && p.owner == u.id ==> r <= p.date
    ensures r == u.created || exists p :: p in posts && p.owner == u.id && p.date == r
  {
    if posts == [] then u.created
    else
      assert posts == [posts[0]] + posts[1..];
      var rest := SeedTime(u, posts[1..]);
      if posts[0].owner == u.id && posts[0].date < rest then posts[0].date else rest
  }

  /** A row of the seed query: a user id and the time its rating history starts. */
  datatype Seed = Seed(user: int, start: int)

  function SeedStart(s: Seed): int
  {
    s.start
  }

  /** The grouped rows of the seed query, one per user, before ordering. */
  function SeedRows(users: seq<User>, posts: seq<Post>): seq<Seed>
  {
    seq(|users|, i requires 0 <= i < |users| => Seed(users[i].id, SeedTime(users[i], posts)))
  }

  /** `_users_with_creation_date`: the seed rows ordered by start time. */
  function UsersWithCreationDate(db: Db): (seeds: seq<Seed>)
    ensures |seeds| == |db.users|
    ensures SortedBy(seeds, SeedStart)
  {
    SortBy(SeedRows(db.users, db.posts), SeedStart)
  }

  /** The seed list has a row for every user and only rows of users. */
  lemma SeedsOfUsers(db: Db, s: Seed)
    ensures s in UsersWithCreationDate(db) <==>
      exists u :: u in db.users && s == Seed(u.id, SeedTime(u, db.posts))
  {
    var rows := SeedRows(db.users, db.posts);
    SortByMembers(rows, SeedStart, s);
    if s in rows {
      var i :| 0 <= i < |rows| && rows[i] == s;
      assert db.users[i] in db.users;
    }
    if exists u :: u in db.users && s == Seed(u.id, SeedTime(u, db.posts)) {
      var u :| u in db.users && s == Seed(u.id, SeedTime(u, db.posts));
      var i :| 0 <= i < |db.users| && db.users[i] == u;
      assert rows[i] == s;
    }
  }

  /**
   * `GROUP BY bar.id`: with unique user ids, no two rows of the seed list
   * belong to the same user.
   */
  lemma SeedIdsUnique(db: Db)
    requires KeysUnique(db)
    ensures var seeds := UsersWithCreationDate(db);
      forall i, j :: 0 <= i < j < |seeds| ==> seeds[i].user != seeds[j].user
  {
    var rows := SeedRows(db.users, db.posts);
    var seeds := UsersWithCreationDate(db);
    assert Distinct(rows) by {
      forall i, j | 0 <= i < j < |rows| ensures rows[i] != rows[j] {
        assert rows[i].user == db.users[i].id && rows[j].user == db.users[j].id;
      }
    }
    SortByDistinct(rows, SeedStart);
    forall i, j | 0 <= i < j < |seeds| ensures seeds[i].user != seeds[j].user {
      SortByMembers(rows, SeedStart, seeds[i]);
      SortByMembers(rows, SeedStart, seeds[j]);
      var p :| 0 <= p < |rows| && rows[p] == seeds[i];
      var q :| 0 <= q < |rows| && rows[q] == seeds[j];
      assert p != q;
      assert rows[p].user == db.users[p].id && rows[q].user == db.users[q].id;
    }
  }
}
