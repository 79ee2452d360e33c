/** The state transitions of `vote_post` and `toggle_favorite`, and the cascade
    that deleting a post applies to its votes and favorites, as pure functions
    on the tables. */
module Transitions {
  import opened Models
  import opened Seqs

  /** The vote type other than `t`. */
  function Other(t: VoteType): (o: VoteType)
    ensures o != t
  {
    match t
    case Up => Down
    case Down => Up
  }

  /** The transition of one (post, user) vote for a valid vote type: no vote
      becomes a vote of that type, the same type is retracted, the other type
      is flipped. */
  function VoteStep(current: Option<VoteType>, cast: VoteType): Option<VoteType>
  {
    match current
    case None => Some(cast)
    case Some(existing) => if existing == cast then None else Some(cast)
  }

  /** none -> t -> none, t -> none -> t and a flip in one step. */
  lemma VoteStepCycle(t: VoteType)
    ensures VoteStep(None, t) == Some(t)
    ensures VoteStep(VoteStep(None, t), t) == None
    ensures VoteStep(VoteStep(Some(t), t), t) == Some(t)
    ensures VoteStep(Some(Other(t)), t) == Some(t)
  {
  }

  /** The vote table after `vote_post(post=p, user=u, vote_type=t)`. */
  function CastVote(votes: VoteTable, p: PostId, u: UserId, t: VoteType): (r: VoteTable)
    ensures VoteOf(r, p, u) == VoteStep(VoteOf(votes, p, u), t)
    ensures forall k :: k != (p, u) ==> (k in r <==> k in votes)
    ensures forall k :: k != (p, u) && k in r ==> r[k] == votes[k]
  {
    match VoteStep(VoteOf(votes, p, u), t)
    case None => votes - {(p, u)}
    case Some(n) => votes[(p, u) := n]
  }

  /** Casting the same type twice restores the table, unless the user held
      the other type, which the first cast flips and the second retracts. */
  lemma {:induction false} CastTwice(votes: VoteTable, p: PostId, u: UserId, t: VoteType)
    ensures VoteOf(votes, p, u) != Some(Other(t)) ==> CastVote(CastVote(votes, p, u, t), p, u, t) == votes
    ensures VoteOf(votes, p, u) == Some(Other(t)) ==> CastVote(CastVote(votes, p, u, t), p, u, t) == votes - {(p, u)}
  {
    var r := CastVote(CastVote(votes, p, u, t), p, u, t);
    if VoteOf(votes, p, u) != Some(Other(t)) {
      assert VoteOf(r, p, u) == VoteOf(votes, p, u);
      assert r.Keys == votes.Keys;
    } else {
      assert VoteOf(r, p, u) == None;
      assert r.Keys == votes.Keys - {(p, u)};
    }
  }

  lemma CardWithout<T>(s: set<T>, k: T)
    ensures |s| == |s - {k}| + (if k in s then 1 else 0)
  {
    if k !in s {
      assert s - {k} == s;
    }
  }

  /** How one cast changes the number of votes of type `c` on post `q`. */
  lemma {:induction false} CountAfterCast(votes: VoteTable, p: PostId, u: UserId, t: VoteType, q: PostId, c: VoteType)
    ensures |VotesOfType(CastVote(votes, p, u, t), q, c)|
         == |VotesOfType(votes, q, c)|
            - (if q == p && VoteOf(votes, p, u) == Some(c) then 1 else 0)
            + (if q == p && VoteStep(VoteOf(votes, p, u), t) == Some(c) then 1 else 0)
  {
    var r := CastVote(votes, p, u, t);
    var k := (p, u);
    var before, after := VotesOfType(votes, q, c), VotesOfType(r, q, c);
    assert after - {k} == before - {k} by {
      forall j | j != k ensures j in after <==> j in before {
        assert j in r <==> j in votes;
        assert j in r ==> r[j] == votes[j];
      }
    }
    assert k in before <==> q == p && VoteOf(votes, p, u) == Some(c);
    assert k in after <==> q == p && VoteOf(r, p, u) == Some(c);
    CardWithout(before, k);
    CardWithout(after, k);
  }

  /** A cast moves the rating of its own post by the weight of the new vote
      state minus that of the old one, and leaves every other rating alone. */
  lemma {:induction false} RatingAfterCast(votes: VoteTable, p: PostId, u: UserId, t: VoteType, q: PostId)
    ensures Rating(CastVote(votes, p, u, t), q)
         == Rating(votes, q)
            + (if q == p then Weight(VoteStep(VoteOf(votes, p, u), t)) - Weight(VoteOf(votes, p, u)) else 0)
  {
    CountAfterCast(votes, p, u, t, q, Up);
    CountAfterCast(votes, p, u, t, q, Down);
  }

  /** The favorite table after `toggle_favorite(user=u, post=p)` at time `now`:
      get-or-create, then delete what already existed. */
  function ToggleFavoriteTable(favorites: FavoriteTable, u: UserId, p: PostId, now: Timestamp): (r: FavoriteTable)
    ensures (u, p) in r <==> (u, p) !in favorites
    ensures (u, p) in r ==> r[(u, p)] == now
    ensures forall k :: k != (u, p) ==> (k in r <==> k in favorites)
    ensures forall k :: k != (u, p) && k in r ==> r[k] == favorites[k]
  {
    var created := (u, p) !in favorites;
    var got := if created then favorites[(u, p) := now] else favorites;
    if !created then got - {(u, p)} else got
  }

  /** Toggling twice restores membership and every other row; only the
      re-created row of a favorite that was present carries the new date. */
  lemma {:induction false} ToggleFavoriteTwice(favorites: FavoriteTable, u: UserId, p: PostId, now1: Timestamp, now2: Timestamp)
    ensures (u, p) !in favorites ==>
      ToggleFavoriteTable(ToggleFavoriteTable(favorites, u, p, now1), u, p, now2) == favorites
    ensures (u, p) in favorites ==>
      ToggleFavoriteTable(ToggleFavoriteTable(favorites, u, p, now1), u, p, now2) == favorites[(u, p) := now2]
  {
    var r := ToggleFavoriteTable(ToggleFavoriteTable(favorites, u, p, now1), u, p, now2);
    if (u, p) !in favorites {
      assert r.Keys == favorites.Keys;
    } else {
      assert r.Keys == favorites.Keys;
      assert r == favorites[(u, p) := now2];
    }
  }

  /** `on_delete=CASCADE` from Vote.post: the votes left after deleting post `id`. */
  function CascadeVotes(votes: VoteTable, id: PostId): (r: VoteTable)
    ensures forall k :: k in r <==> k in votes && k.0 != id
    ensures forall k :: k in r ==> r[k] == votes[k]
  {
    map k | k in votes && k.0 != id :: votes[k]
  }

  /** `on_delete=CASCADE` from Favorite.post: the favorites left after deleting post `id`. */
  function CascadeFavorites(favorites: FavoriteTable, id: PostId): (r: FavoriteTable)
    ensures forall k :: k in r <==> k in favorites && k.1 != id
    ensures forall k :: k in r ==> r[k] == favorites[k]
  {
    map k | k in favorites && k.1 != id :: favorites[k]
  }

  /** The posts left after deleting post `id`. */
  function WithoutPost(posts: seq<Post>, id: PostId): (r: seq<Post>)
    ensures forall p :: multiset(r)[p] == if p.id != id then multiset(posts)[p] else 0
    ensures forall p :: p in r <==> p in posts && p.id != id
  {
    Filter(posts, (p: Post) => p.id != id)
  }

  /** Deleting a post leaves no vote on it and every other post's counts as they were. */
  lemma {:induction false} RatingAfterCascade(votes: VoteTable, id: PostId, q: PostId)
    ensures VotesOn(CascadeVotes(votes, id), id) == {}
    ensures q != id ==> Upvotes(CascadeVotes(votes, id), q) == Upvotes(votes, q)
    ensures q != id ==> Downvotes(CascadeVotes(votes, id), q) == Downvotes(votes, q)
    ensures Rating(CascadeVotes(votes, id), q) == if q == id then 0 else Rating(votes, q)
  {
    var r := CascadeVotes(votes, id);
    if q != id {
      assert VotesOfType(r, q, Up) == VotesOfType(votes, q, Up);
      assert VotesOfType(r, q, Down) == VotesOfType(votes, q, Down);
    } else {
      assert VotesOn(r, q) == {};
    }
  }

  /** Deleting a post with its cascade keeps the tables consistent. */
  lemma {:induction false} CascadeKeepsConsistent(posts: seq<Post>, votes: VoteTable, favorites: FavoriteTable, nextId: PostId, id: PostId)
    requires Consistent(posts, votes, favorites, nextId)
    ensures Consistent(WithoutPost(posts, id), CascadeVotes(votes, id), CascadeFavorites(favorites, id), nextId)
  {
    var posts', votes', favorites' := WithoutPost(posts, id), CascadeVotes(votes, id), CascadeFavorites(favorites, id);
    forall p | p in posts' ensures multiset(posts')[p] <= 1 && p.id < nextId {
      assert multiset(posts)[p] <= 1;
    }
    forall p | p !in posts' ensures multiset(posts')[p] <= 1 {
    }
    forall k | k in votes' ensures HasPost(posts', k.0) {
      var p :| p in posts && p.id == k.0;
      assert p in posts';
    }
    forall k | k in favorites' ensures HasPost(posts', k.1) {
      var p :| p in posts && p.id == k.1;
      assert p in posts';
    }
  }
}
