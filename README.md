# Sales Aggregator discounts core, modelled in Dafny

The discounts app lets signed-in users post discount listings. Other users vote
a post up or down and add it to their favorites. Everyone can browse a feed
that can be filtered by category and sorted by date or by rating. This project
models the logic behind that:

- `Models` (`models.dfy`) holds the entities of `discounts/models.py`. It
  defines the vote-type choices and their codes, and the Vote and Favorite
  tables. Both tables are maps keyed by (post, user) and (user, post), so
  their `unique_together` constraints hold by construction. It also defines
  the vote counts of a post, `Post.rating`, and when the tables are
  consistent: distinct post ids and no row pointing at a missing post.
- `Transitions` (`transitions.dfy`) holds the state changes as pure functions
  on the tables:
  - the three-state vote transition behind `vote_post`;
  - the two-state favorite toggle behind `toggle_favorite`;
  - the `on_delete=CASCADE` clean-up that runs when a post is deleted.

  It also proves what these functions do to membership, to the counts and to
  the rating.
- `Seqs` (`seqs.dfy`) holds a filter that keeps multiplicities, the queryset
  `filter` of the views.
- `Feed` (`feed.dfy`) holds the pipeline behind the `home`, `user_posts` and
  `favorites` views: select, annotate with `upvotes_count` and
  `downvotes_count`, filter by category, and order. Each sort is proved to
  return a permutation of its input that is sorted by the view's key.
- `Database` (`database.dfy`) has the class `Store`. It holds the posts, votes
  and favorites tables as fields, and its methods follow the request handlers
  step by step: `CreatePostView.post`, `vote_post`, `toggle_favorite`, and the
  cascading delete. Each method keeps the consistency invariant.
  `VotePost`, `ToggleFavorite` and `DeletePost` state their new tables through
  the functions of `Transitions`. `CreatePost` states the appended post
  directly. `PostNotFound` and `FavoritePostNotFound` stand for the 404 that
  `get_object_or_404` raises. Every other outcome of `vote_post` and
  `toggle_favorite` redirects to the home page.

`urls.py` (line 11) routes to `views.delete_post`, but `views.py` does not
define that function. Post deletion is therefore modelled only as the
`on_delete=CASCADE` behaviour that `models.py` declares.

Post dates are integers (`Timestamp`). Ids are natural numbers. The current
time that the database would stamp on new rows, and the authenticated user,
are method parameters.

## Model

| member | source | states |
|---|---|---|
| Models.Code | Sales_Aggregator/discounts/models.py:69-72 | each vote type's stored code is one of the two `VOTE_TYPES` codes and parses back to that type |
| Models.ParseVoteType | Sales_Aggregator/discounts/views.py:58-60 | a `vote_type` argument is accepted exactly when it is "up" or "down", and maps to the matching type |
| Models.VoteCountSplit | Sales_Aggregator/discounts/models.py:53-57 | the up count plus the down count of a post is the number of votes on it |
| Models.Rating | Sales_Aggregator/discounts/models.py:53-57 | `rating` (up count minus down count) is 0 for a post with no votes and never exceeds the number of its votes in absolute value |
| Models.VoteRowsUnique | Sales_Aggregator/discounts/models.py:86-99 | the Vote table never holds two rows for one (post, user), and every stored `vote_type` is one of `VOTE_TYPES` |
| Models.FavoriteRowsUnique | Sales_Aggregator/discounts/models.py:126 | the Favorite table never holds two rows for one (user, post) |
| Seqs.Filter | Sales_Aggregator/discounts/views.py:18-19 | a filter keeps exactly the accepted elements, each as often as it occurs in the input |
| Transitions.VoteStepCycle | Sales_Aggregator/discounts/views.py:64-71 | no vote becomes a vote of the cast type; casting it again returns to no vote; a vote of the cast type returns after two casts; the other type flips in one step with no "none" in between |
| Transitions.CastVote | Sales_Aggregator/discounts/views.py:62-71 | after a cast, the (post, user) entry is the transition of its old state, and every other user's and post's entry is unchanged |
| Transitions.CastTwice | Sales_Aggregator/discounts/views.py:64-71 | casting the same type twice restores the whole table, except from a vote of the other type, which ends retracted |
| Transitions.CountAfterCast | Sales_Aggregator/discounts/views.py:62-71 | on its own post, a cast lowers the count of type c by one when the old vote had type c and raises it by one when the new vote has type c; other posts' counts are unchanged |
| Transitions.RatingAfterCast | Sales_Aggregator/discounts/models.py:53-57 | a cast moves its own post's rating by the weight of the new vote state minus the weight of the old one (+1 up, -1 down, 0 none), and leaves every other rating unchanged |
| Transitions.ToggleFavoriteTable | Sales_Aggregator/discounts/views.py:79-88 | a toggle negates membership of (user, post), dates a new favorite with the current time, and leaves every other row unchanged |
| Transitions.ToggleFavoriteTwice | Sales_Aggregator/discounts/views.py:79-88 | toggling twice restores the table; a favorite that was present comes back dated by the second toggle |
| Transitions.CascadeVotes | Sales_Aggregator/discounts/models.py:74-79 | deleting a post removes exactly the votes on it |
| Transitions.CascadeFavorites | Sales_Aggregator/discounts/models.py:112-117 | deleting a post removes exactly the favorites of it |
| Transitions.RatingAfterCascade | Sales_Aggregator/discounts/models.py:74-79 | after the cascade no vote is left on the deleted post, and every other post's counts and rating are unchanged |
| Transitions.CascadeKeepsConsistent | Sales_Aggregator/discounts/models.py:74-117 | deleting a post with its cascade leaves no vote or favorite pointing at a missing post, and keeps post ids distinct |
| Feed.Annotate | Sales_Aggregator/discounts/views.py:11-14 | annotation keeps each post in its place and attaches its up and down counts, whose difference is `Post.rating` |
| Feed.AnnotateCount | Sales_Aggregator/discounts/views.py:11-14 | an annotated list holds each post's item as often as the post occurs, and nothing else |
| Feed.SortDesc | Sales_Aggregator/discounts/views.py:23-26 | ordering by a key returns a permutation of the input sorted by that key, descending |
| Feed.SortNewest | Sales_Aggregator/discounts/views.py:25-26 | `-created_at` ordering returns a permutation sorted newest first |
| Feed.SortByRating | Sales_Aggregator/discounts/views.py:23-24 | rating ordering returns a permutation sorted by up votes descending, then down votes ascending, then `created_at` descending |
| Feed.SortByFavoriteDate | Sales_Aggregator/discounts/views.py:105 | `-favorited_by__created_at` ordering returns a permutation sorted by the viewer's favorite date, most recent first |
| Feed.Home | Sales_Aggregator/discounts/views.py:10-26 | the home feed holds exactly the posts of the requested category (all posts when none is given), freshly annotated; with `sort=rating` it is in rating order, otherwise newest first |
| Feed.UserPosts | Sales_Aggregator/discounts/views.py:92-98 | "my posts" holds exactly the viewer's own posts, annotated and newest first |
| Feed.Favorites | Sales_Aggregator/discounts/views.py:100-106 | the favorites page holds exactly the posts the viewer favorited, annotated and ordered by favorite date, most recent first |
| Feed.FeedAgreesWithRating | Sales_Aggregator/discounts/views.py:11-14 | every feed item belongs to the requested category, and its annotated counts give that post's `rating` |
| Feed.HomeKeepsAll | Sales_Aggregator/discounts/views.py:17-19 | without a category filter the feed lists every post |
| Feed.HomeEmptyCategory | Sales_Aggregator/discounts/views.py:17-19 | a category that no post has yields an empty feed, not an error |
| Feed.RatingOrderOfThree | Sales_Aggregator/discounts/views.py:24 | three items that are strictly ranked b, a, c can be rating-ordered in only that order |
| Feed.RatingSortExample | Sales_Aggregator/discounts/views.py:23-24 | A(5 up, 1 down), B(5, 0), C(3, 0), created in that order, sort as B, A, C |
| Database.Store.CreatePost | Sales_Aggregator/discounts/views.py:44-51 | a valid form appends one post with a fresh id, the viewer as author and both dates set to now; votes and favorites are unchanged |
| Database.Store.VotePost | Sales_Aggregator/discounts/views.py:54-73 | a missing post or an invalid type changes nothing; otherwise the vote table becomes `CastVote` of the old one, the outcome says created, cleared or flipped, and the tables stay consistent |
| Database.Store.ToggleFavorite | Sales_Aggregator/discounts/views.py:75-90 | a missing post changes nothing; otherwise the favorites table becomes `ToggleFavoriteTable` of the old one, the outcome is Removed exactly when the favorite existed, and the tables stay consistent |
| Database.Store.DeletePost | Sales_Aggregator/discounts/models.py:74-117 | deleting a post removes it, its votes and its favorites, and nothing else, and keeps the tables consistent |

## Left out

- `login_required`: the redirect of an anonymous visitor to the login page is framework behaviour. The model's handlers take the authenticated user as a parameter.
- `render`, `redirect` and `messages`: the templates the three feed views render, redirects and flash texts are not modelled. The handlers return an outcome tag whose cases match the handler's branches. The home view's template context (`categories`, `current_category`, `sort_by`) is not modelled either.
- `CreatePostView.get` and form validation (`PostForm`, field length limits, checking that the category exists): these are framework code. `CreatePost` models only the save of a valid form, without a Category table. An invalid form re-renders the page and saves nothing.
- Category: its table, unique name and ordering serve only the template's category menu, so none of them is modelled.
- `Feed.Home`'s `category` parameter is an `Option<CategoryId>`, with `None` for a missing or empty value. A non-numeric value, which makes the ORM raise an error, is not modelled.
- Feed sorting: rows that tie on every sort key come back in whatever order the database returns. The model's sort breaks such ties in one fixed way. Its contracts state only the sort keys.
- `Feed.Favorites`: the model assumes `order_by('-favorited_by__created_at')` reuses the join of the preceding `filter`, so posts are ranked by the viewer's own favorite date.
- Deletion cascades from User and Category (`on_delete=CASCADE` on `author`, `user` and `category`): user and category deletion is not modelled. Only a post's deletion is.
- `delete_post`: `urls.py` routes to it, but `views.py` does not define it, so there is no deletion view to model. `DeletePost` models only the declared cascade.
- `Vote.created_at` and the primary keys of Vote and Favorite rows are not modelled. A Vote row keeps only its post, user and type. So the model cannot state that a flip keeps the vote's old `created_at` (the row is saved again) or that a new vote gets a fresh one. No view reads these fields.
- Races between concurrent requests: each handler runs in one step. The uniqueness constraints hold because the tables are maps keyed by the unique pair.
- `Post.updated_at` refresh when a post is saved again: no view edits a post, so `CreatePost` only sets it at creation.
