/** The feed query pipeline behind the `home`, `user_posts` and `favorites`
    views: select posts, annotate them with their vote counts, optionally
    filter by category, and order them. */
module Feed {
  import opened Models
  import opened Seqs

  /** A post carrying the `upvotes_count` and `downvotes_count` annotations. */
  datatype FeedItem = FeedItem(post: Post, upvotes: nat, downvotes: nat)

  /** `p` annotated with its vote counts in `votes`. */
  function Annotated(votes: VoteTable, p: Post): FeedItem
  {
    FeedItem(p, Upvotes(votes, p.id), Downvotes(votes, p.id))
  }

  /** `.annotate(upvotes_count=Count(...up...), downvotes_count=Count(...down...))`:
      every post keeps its place and its annotations agree with `Post.rating`. */
  function Annotate(posts: seq<Post>, votes: VoteTable): (r: seq<FeedItem>)
    ensures |r| == |posts|
    ensures forall i :: 0 <= i < |r| ==> r[i].post == posts[i]
    ensures forall i :: 0 <= i < |r| ==> r[i].upvotes == Upvotes(votes, posts[i].id)
    ensures forall i :: 0 <= i < |r| ==> r[i].downvotes == Downvotes(votes, posts[i].id)
    ensures forall i :: 0 <= i < |r| ==> r[i].upvotes - r[i].downvotes == Rating(votes, posts[i].id)
  {
    if posts == [] then [] else [Annotated(votes, posts[0])] + Annotate(posts[1..], votes)
  }

  /** An annotated list holds each item as often as the post it annotates
      occurs in the input, and holds nothing else. */
  lemma {:induction false} AnnotateCount(posts: seq<Post>, votes: VoteTable)
    ensures forall x ::
      multiset(Annotate(posts, votes))[x] == if x == Annotated(votes, x.post) then multiset(posts)[x.post] else 0
  {
    if posts != [] {
      AnnotateCount(posts[1..], votes);
      assert posts == [posts[0]] + posts[1..];
      assert Annotate(posts, votes) == [Annotated(votes, posts[0])] + Annotate(posts[1..], votes);
    }
  }

  /** A sort key, compared lexicographically and listed in descending order. */
  datatype Rank = Rank(first: int, second: int, third: int)

  /** `a` may be listed before `b`. */
  predicate RanksBefore(a: Rank, b: Rank)
  {
    || a.first > b.first
    || (a.first == b.first && (a.second > b.second || (a.second == b.second && a.third >= b.third)))
  }

  ghost predicate SortedBy(s: seq<FeedItem>, key: FeedItem -> Rank)
  {
    forall i, j :: 0 <= i < j < |s| ==> RanksBefore(key(s[i]), key(s[j]))
  }

  /** Cannot-list-before is listing-after: any two keys are comparable. */
  lemma RanksTotal(a: Rank, b: Rank)
    ensures RanksBefore(a, b) || RanksBefore(b, a)
  {
  }

  lemma {:induction false} SortedCons(h: FeedItem, t: seq<FeedItem>, key: FeedItem -> Rank)
    requires SortedBy(t, key)
    requires forall y :: y in t ==> RanksBefore(key(h), key(y))
    ensures SortedBy([h] + t, key)
  {
    var s := [h] + t;
    forall i, j | 0 <= i < j < |s| ensures RanksBefore(key(s[i]), key(s[j])) {
      assert s[j] == t[j - 1];
      if i > 0 {
        assert s[i] == t[i - 1];
      }
    }
  }

  /** Inserts `x` into a sorted list, keeping it sorted. */
  function Insert(x: FeedItem, s: seq<FeedItem>, key: FeedItem -> Rank): (r: seq<FeedItem>)
    requires SortedBy(s, key)
    ensures SortedBy(r, key)
    ensures multiset(r) == multiset(s) + multiset{x}
    ensures forall y :: y in r <==> y == x || y in s
  {
    if s == [] then [x]
    else if RanksBefore(key(x), key(s[0])) then
      SortedCons(x, s, key);
      [x] + s
    else
      assert s == [s[0]] + s[1..];
      var rest := Insert(x, s[1..], key);
      assert forall y :: y in rest ==> RanksBefore(key(s[0]), key(y)) by {
        RanksTotal(key(x), key(s[0]));
        forall y | y in rest ensures RanksBefore(key(s[0]), key(y)) {
          if y != x {
            var j :| 0 <= j < |s[1..]| && s[1..][j] == y;
            assert s[j + 1] == y;
          }
        }
      }
      SortedCons(s[0], rest, key);
      [s[0]] + rest
  }

  /** `.order_by(...)` on the key `key`, descending: a sorted permutation. */
  function SortDesc(s: seq<FeedItem>, key: FeedItem -> Rank): (r: seq<FeedItem>)
    ensures SortedBy(r, key)
    ensures multiset(r) == multiset(s)
  {
    if s == [] then []
    else
      assert s == [s[0]] + s[1..];
      Insert(s[0], SortDesc(s[1..], key), key)
  }

  function NewestRank(x: FeedItem): Rank
  {
    Rank(x.post.createdAt, 0, 0)
  }

  function RatingRank(x: FeedItem): Rank
  {
    Rank(x.upvotes, -(x.downvotes as int), x.post.createdAt)
  }

  /** `.order_by('-created_at')` */
  function SortNewest(items: seq<FeedItem>): (r: seq<FeedItem>)
    ensures multiset(r) == multiset(items)
    ensures forall i, j :: 0 <= i < j < |r| ==> r[i].post.createdAt >= r[j].post.createdAt
  {
    var r := SortDesc(items, NewestRank);
    assert forall i, j :: 0 <= i < j < |r| ==> RanksBefore(NewestRank(r[i]), NewestRank(r[j]));
    r
  }

  /** The rating order: more up votes first, then fewer down votes, then newer. */
  predicate RatingOrdered(a: FeedItem, b: FeedItem)
  {
    || a.upvotes > b.upvotes
    || (a.upvotes == b.upvotes && a.downvotes < b.downvotes)
    || (a.upvotes == b.upvotes && a.downvotes == b.downvotes && a.post.createdAt >= b.post.createdAt)
  }

  /** `.order_by('-upvotes_count', 'downvotes_count', '-created_at')` */
  function SortByRating(items: seq<FeedItem>): (r: seq<FeedItem>)
    ensures multiset(r) == multiset(items)
    ensures forall i, j :: 0 <= i < j < |r| ==> RatingOrdered(r[i], r[j])
  {
    var r := SortDesc(items, RatingRank);
    assert forall i, j :: 0 <= i < j < |r| ==> RanksBefore(RatingRank(r[i]), RatingRank(r[j]));
    r
  }

  /** When the viewer favorited post `id` (0 if never). */
  function FavoritedAt(favorites: FavoriteTable, viewer: UserId, id: PostId): Timestamp
  {
    if (viewer, id) in favorites then favorites[(viewer, id)] else 0
  }

  /** `.order_by('-favorited_by__created_at')`, the join being the viewer's own favorite. */
  function SortByFavoriteDate(items: seq<FeedItem>, favorites: FavoriteTable, viewer: UserId): (r: seq<FeedItem>)
    ensures multiset(r) == multiset(items)
    ensures forall i, j :: 0 <= i < j < |r| ==>
      FavoritedAt(favorites, viewer, r[i].post.id) >= FavoritedAt(favorites, viewer, r[j].post.id)
  {
    var key := (x: FeedItem) => Rank(FavoritedAt(favorites, viewer, x.post.id), 0, 0);
    var r := SortDesc(items, key);
    assert forall i, j :: 0 <= i < j < |r| ==> RanksBefore(key(r[i]), key(r[j]));
    r
  }

  /** The `category` query parameter; `None` when it is absent or empty. */
  predicate InCategory(p: Post, category: Option<CategoryId>)
  {
    category.None? || p.category == category.value
  }

  /** The `sort` query parameter selects the rating order only when it is
      exactly "rating"; absent or anything else means newest first. */
  predicate SortsByRating(sort: Option<string>)
  {
    sort == Some("rating")
  }

  /** The `home` view's post list. */
  function Home(posts: seq<Post>, votes: VoteTable, category: Option<CategoryId>, sort: Option<string>): (r: seq<FeedItem>)
    ensures forall x ::
      multiset(r)[x] == if InCategory(x.post, category) && x == Annotated(votes, x.post) then multiset(posts)[x.post] else 0
    ensures SortsByRating(sort) ==> forall i, j :: 0 <= i < j < |r| ==> RatingOrdered(r[i], r[j])
    ensures !SortsByRating(sort) ==> forall i, j :: 0 <= i < j < |r| ==> r[i].post.createdAt >= r[j].post.createdAt
  {
    var annotated := Annotate(posts, votes);
    AnnotateCount(posts, votes);
    var filtered := if category.Some? then Filter(annotated, (x: FeedItem) => x.post.category == category.value) else annotated;
    if SortsByRating(sort) then SortByRating(filtered) else SortNewest(filtered)
  }

  /** The `user_posts` view: the viewer's own posts, newest first. */
  function UserPosts(posts: seq<Post>, votes: VoteTable, viewer: UserId): (r: seq<FeedItem>)
    ensures forall x ::
      multiset(r)[x] == if x.post.author == viewer && x == Annotated(votes, x.post) then multiset(posts)[x.post] else 0
    ensures forall i, j :: 0 <= i < j < |r| ==> r[i].post.createdAt >= r[j].post.createdAt
  {
    var own := Filter(posts, (p: Post) => p.author == viewer);
    AnnotateCount(own, votes);
    SortNewest(Annotate(own, votes))
  }

  /** The `favorites` view: the posts the viewer favorited, most recently
      favorited first. */
  function Favorites(posts: seq<Post>, votes: VoteTable, favorites: FavoriteTable, viewer: UserId): (r: seq<FeedItem>)
    ensures forall x ::
      multiset(r)[x] == if (viewer, x.post.id) in favorites && x == Annotated(votes, x.post) then multiset(posts)[x.post] else 0
    ensures forall i, j :: 0 <= i < j < |r| ==>
      favorites[(viewer, r[i].post.id)] >= favorites[(viewer, r[j].post.id)]
  {
    var favorited := Filter(posts, (p: Post) => (viewer, p.id) in favorites);
    AnnotateCount(favorited, votes);
    SortByFavoriteDate(Annotate(favorited, votes), favorites, viewer)
  }

  /** Every item of the feed belongs to the requested category and carries
      the counts `Post.rating` is computed from. */
  lemma {:induction false} FeedAgreesWithRating(posts: seq<Post>, votes: VoteTable, category: Option<CategoryId>, sort: Option<string>)
    ensures forall x :: x in Home(posts, votes, category, sort) ==>
      && x.post in posts
      && InCategory(x.post, category)
      && x.upvotes - x.downvotes == Rating(votes, x.post.id)
  {
    var r := Home(posts, votes, category, sort);
    forall x | x in r ensures x.post in posts && InCategory(x.post, category) {
      assert multiset(r)[x] > 0;
    }
  }

  /** With no category filter the feed lists every post. */
  lemma {:induction false} HomeKeepsAll(posts: seq<Post>, votes: VoteTable, sort: Option<string>)
    ensures |Home(posts, votes, None, sort)| == |posts|
  {
    var r := Home(posts, votes, None, sort);
    AnnotateCount(posts, votes);
    assert multiset(r) == multiset(Annotate(posts, votes));
    assert |r| == |multiset(r)|;
  }

  /** A category that no post has gives an empty feed, not an error. */
  lemma {:induction false} HomeEmptyCategory(posts: seq<Post>, votes: VoteTable, c: CategoryId, sort: Option<string>)
    requires forall p :: p in posts ==> p.category != c
    ensures Home(posts, votes, Some(c), sort) == []
  {
  }

  /** Three items that the rating order ranks strictly as b, a, c can be
      listed in that order only. */
  lemma {:induction false} RatingOrderOfThree(r: seq<FeedItem>, a: FeedItem, b: FeedItem, c: FeedItem)
    requires |r| == 3 && a in r && b in r && c in r
    requires forall i, j :: 0 <= i < j < |r| ==> RatingOrdered(r[i], r[j])
    requires !RatingOrdered(a, b) && !RatingOrdered(c, b) && !RatingOrdered(c, a)
    ensures r == [b, a, c]
  {
    var ia :| 0 <= ia < 3 && r[ia] == a;
    var ib :| 0 <= ib < 3 && r[ib] == b;
    var ic :| 0 <= ic < 3 && r[ic] == c;
    assert ib < ia < ic;
  }

  /** A(5 up, 1 down), B(5, 0), C(3, 0), created in that order, sort as B, A, C. */
  lemma {:induction false} RatingSortExample(a: FeedItem, b: FeedItem, c: FeedItem)
    requires a.upvotes == 5 && a.downvotes == 1 && a.post.createdAt == 1
    requires b.upvotes == 5 && b.downvotes == 0 && b.post.createdAt == 2
    requires c.upvotes == 3 && c.downvotes == 0 && c.post.createdAt == 3
    ensures SortByRating([a, b, c]) == [b, a, c]
  {
    var r := SortByRating([a, b, c]);
    assert multiset(r) == multiset{a, b, c};
    assert a in multiset(r) && b in multiset(r) && c in multiset(r);
    RatingOrderOfThree(r, a, b, c);
  }
}
