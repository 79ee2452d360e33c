/** The tables the views change, held by one object whose methods follow the
    request handlers `CreatePostView.post`, `vote_post` and `toggle_favorite`
    step by step, plus the cascade that deleting a post triggers. */
module Database {
  import opened Models
  import opened Transitions

  /** What `vote_post` did. `PostNotFound` is the 404 of `get_object_or_404`;
      every other outcome redirects to the home page. */
  datatype VoteOutcome = PostNotFound | InvalidVoteType | VoteCreated | VoteCleared | VoteFlipped

  /** What `toggle_favorite` did. `FavoritePostNotFound` is the 404 of
      `get_object_or_404`; the two successes redirect home with different
      flash messages. */
  datatype FavoriteOutcome = FavoritePostNotFound | FavoriteAdded | FavoriteRemoved

  class Store {
    var posts: seq<Post>
    var votes: VoteTable
    var favorites: FavoriteTable
    /** The next value of the auto-increment primary key of Post. */
    var nextId: PostId

    ghost predicate Valid()
      reads this
    {
      Consistent(posts, votes, favorites, nextId)
    }

    constructor ()
      ensures Valid()
      ensures posts == [] && votes == map[] && favorites == map[]
    {
      posts, votes, favorites := [], map[], map[];
      nextId := 1;
    }

    /** Saves a post from a valid form, with the viewer as author and both
        dates set to `now`. */
    method CreatePost(title: string, description: string, place: string, category: CategoryId,
                      author: UserId, now: Timestamp) returns (id: PostId)
      requires Valid()
      modifies this
      ensures Valid()
      ensures !HasPost(old(posts), id)
      ensures posts == old(posts) + [Post(id, title, description, place, category, author, now, now)]
      ensures votes == old(votes) && favorites == old(favorites)
    {
      id := nextId;
      var post := Post(id, title, description, place, category, author, now, now);
      assert post !in posts;
      posts := posts + [post];
      nextId := nextId + 1;
    }

    /** `vote_post(post_id, vote_type)` by `user`. */
    method VotePost(postId: PostId, user: UserId, voteType: string) returns (outcome: VoteOutcome)
      requires Valid()
      modifies this
      ensures Valid()
      ensures posts == old(posts) && favorites == old(favorites) && nextId == old(nextId)
      ensures outcome == PostNotFound <==> !HasPost(posts, postId)
      ensures outcome == InvalidVoteType <==> HasPost(posts, postId) && ParseVoteType(voteType).None?
      ensures outcome == PostNotFound || outcome == InvalidVoteType ==> votes == old(votes)
      ensures HasPost(posts, postId) && ParseVoteType(voteType).Some? ==>
        var t := ParseVoteType(voteType).value;
        && votes == CastVote(old(votes), postId, user, t)
        && (outcome == VoteCreated <==> VoteOf(old(votes), postId, user) == None)
        && (outcome == VoteCleared <==> VoteOf(old(votes), postId, user) == Some(t))
        && (outcome == VoteFlipped <==> VoteOf(old(votes), postId, user) == Some(Other(t)))
    {
      if !HasPost(posts, postId) {
        return PostNotFound;
      }
      var parsed := ParseVoteType(voteType);
      if parsed.None? {
        return InvalidVoteType;
      }
      var t := parsed.value;
      var key := (postId, user);
      if key in votes {
        if votes[key] == t {
          votes := votes - {key};
          outcome := VoteCleared;
        } else {
          votes := votes[key := t];
          outcome := VoteFlipped;
        }
      } else {
        votes := votes[key := t];
        outcome := VoteCreated;
      }
    }

    /** `toggle_favorite(post_id)` by `user` at time `now`: get-or-create the
        favorite, then delete it if it already existed. */
    method ToggleFavorite(user: UserId, postId: PostId, now: Timestamp) returns (outcome: FavoriteOutcome)
      requires Valid()
      modifies this
      ensures Valid()
      ensures posts == old(posts) && votes == old(votes) && nextId == old(nextId)
      ensures outcome == FavoritePostNotFound <==> !HasPost(posts, postId)
      ensures !HasPost(posts, postId) ==> favorites == old(favorites)
      ensures HasPost(posts, postId) ==>
        && favorites == ToggleFavoriteTable(old(favorites), user, postId, now)
        && (outcome == FavoriteRemoved <==> (user, postId) in old(favorites))
        && (outcome == FavoriteAdded <==> (user, postId) !in old(favorites))
    {
      if !HasPost(posts, postId) {
        return FavoritePostNotFound;
      }
      var key := (user, postId);
      var created := key !in favorites;
      if created {
        favorites := favorites[key := now];
      }
      if !created {
        favorites := favorites - {key};
        outcome := FavoriteRemoved;
      } else {
        outcome := FavoriteAdded;
      }
    }

    /** Deleting post `id`, with `on_delete=CASCADE` removing its votes and
        favorites. */
    method DeletePost(id: PostId)
      requires Valid()
      modifies this
      ensures Valid()
      ensures posts == WithoutPost(old(posts), id)
      ensures votes == CascadeVotes(old(votes), id)
      ensures favorites == CascadeFavorites(old(favorites), id)
      ensures nextId == old(nextId)
    {
      CascadeKeepsConsistent(posts, votes, favorites, nextId, id);
      posts := WithoutPost(posts, id);
      votes := CascadeVotes(votes, id);
      favorites := CascadeFavorites(favorites, id);
    }
  }
}
