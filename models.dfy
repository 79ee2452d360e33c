/** The persisted entities of the discounts app and the values derived from
    them: the vote-type choices, the vote and favorite tables (keyed so that
    their `unique_together` constraints hold by construction), the vote counts
    and the rating of a post. */
module Models {

  datatype Option<T> = None | Some(value: T)

  type PostId = nat
  type UserId = nat
  type CategoryId = nat

  /** A `created_at` / `updated_at` date, abstracted to an integer. */
  type Timestamp = int

  /** The two choices of `Vote.VOTE_TYPES`. */
  datatype VoteType = Up | Down

  /** The codes stored in `Vote.vote_type`, in the order of `VOTE_TYPES`. */
  const VoteTypeCodes: seq<string> := ["up", "down"]

  /** The stored code of a vote type; parsing it gives the type back. */
  function Code(t: VoteType): (s: string)
    ensures s in VoteTypeCodes
    ensures ParseVoteType(s) == Some(t)
  {
    match t
    case Up => "up"
    case Down => "down"
  }

  /** Reads a `vote_type` URL argument: exactly the two codes are accepted. */
  function ParseVoteType(s: string): (r: Option<VoteType>)
    ensures r.Some? <==> s in VoteTypeCodes
    ensures r == Some(Up) <==> s == "up"
    ensures r == Some(Down) <==> s == "down"
  {
    if s == "up" then Some(Up)
    else if s == "down" then Some(Down)
    else None
  }

  datatype Post = Post(
    id: PostId,
    title: string,
    description: string,
    place: string,
    category: CategoryId,
    author: UserId,
    createdAt: Timestamp,
    updatedAt: Timestamp)

  /** The Vote table: at most one vote per (post, user), by construction. */
  type VoteTable = map<(PostId, UserId), VoteType>

  /** The Favorite table: at most one row per (user, post), holding its `created_at`. */
  type FavoriteTable = map<(UserId, PostId), Timestamp>

  /** The vote `user` holds on `post`, if any. */
  function VoteOf(votes: VoteTable, post: PostId, user: UserId): Option<VoteType>
  {
    if (post, user) in votes then Some(votes[(post, user)]) else None
  }

  /** The keys of all votes on post `p`. */
  function VotesOn(votes: VoteTable, p: PostId): set<(PostId, UserId)>
  {
    set k | k in votes && k.0 == p
  }

  /** The keys of the votes of type `t` on post `p`. */
  function VotesOfType(votes: VoteTable, p: PostId, t: VoteType): set<(PostId, UserId)>
  {
    set k | k in votes && k.0 == p && votes[k] == t
  }

  /** `post.votes.filter(vote_type='up').count()` */
  function Upvotes(votes: VoteTable, p: PostId): nat
  {
    |VotesOfType(votes, p, Up)|
  }

  /** `post.votes.filter(vote_type='down').count()` */
  function Downvotes(votes: VoteTable, p: PostId): nat
  {
    |VotesOfType(votes, p, Down)|
  }

  /** Every vote on a post is either up or down, so the two counts add up
      to the number of votes on it. */
  lemma {:induction false} VoteCountSplit(votes: VoteTable, p: PostId)
    ensures Upvotes(votes, p) + Downvotes(votes, p) == |VotesOn(votes, p)|
  {
    var up, down := VotesOfType(votes, p, Up), VotesOfType(votes, p, Down);
    assert up * down == {};
    assert up + down == VotesOn(votes, p);
  }

  /** `Post.rating`: up votes minus down votes. It is 0 when nobody voted and
      never exceeds the number of votes in absolute value. */
  function Rating(votes: VoteTable, p: PostId): (r: int)
    ensures VotesOn(votes, p) == {} ==> r == 0
    ensures -|VotesOn(votes, p)| <= r <= |VotesOn(votes, p)|
  {
    VoteCountSplit(votes, p);
    Upvotes(votes, p) - Downvotes(votes, p)
  }

  /** The weight a vote state contributes to the rating. */
  function Weight(v: Option<VoteType>): int
  {
    match v
    case None => 0
    case Some(Up) => 1
    case Some(Down) => -1
  }

  /** The post, user and type of a Vote row; its id and `created_at` are
      not modelled. */
  datatype VoteRow = VoteRow(post: PostId, user: UserId, voteType: VoteType)

  function VoteRows(votes: VoteTable): set<VoteRow>
  {
    set k | k in votes :: VoteRow(k.0, k.1, votes[k])
  }

  /** `unique_together = ['post', 'user']` on Vote, and the stored vote type
      is one of `VOTE_TYPES`. */
  lemma VoteRowsUnique(votes: VoteTable)
    ensures forall r1, r2 ::
      r1 in VoteRows(votes) && r2 in VoteRows(votes) && r1.post == r2.post && r1.user == r2.user
      ==> r1 == r2
    ensures forall r :: r in VoteRows(votes) ==> Code(r.voteType) in VoteTypeCodes
  {
  }

  /** The user, post and `created_at` of a Favorite row; its id is not
      modelled. */
  datatype FavoriteRow = FavoriteRow(user: UserId, post: PostId, createdAt: Timestamp)

  function FavoriteRows(favorites: FavoriteTable): set<FavoriteRow>
  {
    set k | k in favorites :: FavoriteRow(k.0, k.1, favorites[k])
  }

  /** `unique_together = ['user', 'post']` on Favorite. */
  lemma FavoriteRowsUnique(favorites: FavoriteTable)
    ensures forall r1, r2 ::
      r1 in FavoriteRows(favorites) && r2 in FavoriteRows(favorites) && r1.user == r2.user && r1.post == r2.post
      ==> r1 == r2
  {
  }

  predicate HasPost(posts: seq<Post>, id: PostId)
  {
    exists p :: p in posts && p.id == id
  }

  /** Every post occurs once and primary keys are distinct and smaller than the next id to hand out;
      every vote and favorite refers to an existing post. */
  ghost predicate Consistent(posts: seq<Post>, votes: VoteTable, favorites: FavoriteTable, nextId: PostId)
  {
    && (forall p, q :: p in posts && q in posts && p.id == q.id ==> p == q)
    && (forall p :: multiset(posts)[p] <= 1)
    && (forall p :: p in posts ==> p.id < nextId)
    && (forall k :: k in votes ==> HasPost(posts, k.0))
    && (forall k :: k in favorites ==> HasPost(posts, k.1))
  }
}
