/** The liked-post set and the like counter of a post card: the optimistic
    toggle of `toggleLike`, its revert when the backend call fails, the
    counter update when it succeeds, and how `loadLikedPosts` fills the set. */
module Likes {

  import opened Entities

  /** The optimistic step of `toggleLike`. `wasLiked` is what the heart icon
      showed when it was clicked: a filled heart is unliked (the id leaves the
      set), an empty one is liked (the id joins it). No other id moves. */
  function Toggled(liked: set<PostId>, postId: PostId, wasLiked: bool): (r: set<PostId>)
    ensures postId in r <==> !wasLiked
    ensures forall q :: q != postId ==> (q in r <==> q in liked)
  {
    if wasLiked then liked - {postId} else liked + {postId}
  }

  /** The revert in `toggleLike`'s error handler: the icon has been flipped,
      so it is read again and the id is put back as the icon first showed it.
      No other id moves. */
  function Reverted(liked: set<PostId>, postId: PostId, wasLiked: bool): (r: set<PostId>)
    ensures postId in r <==> wasLiked
    ensures forall q :: q != postId ==> (q in r <==> q in liked)
  {
    if !wasLiked then liked - {postId} else liked + {postId}
  }

  /** A failed toggle leaves the set as it was, whenever the icon agreed with
      the set before the click. */
  lemma RevertUndoesToggle(liked: set<PostId>, postId: PostId, wasLiked: bool)
    requires (postId in liked) == wasLiked
    ensures Reverted(Toggled(liked, postId, wasLiked), postId, wasLiked) == liked
  {
    var r := Reverted(Toggled(liked, postId, wasLiked), postId, wasLiked);
    assert forall q :: q in r <==> q in liked;
  }

  /** The like count a card shows after a successful toggle: one more after a
      like, one fewer (never below zero) after an unlike. */
  function LikeCountAfter(count: nat, wasLiked: bool): (r: nat)
    ensures !wasLiked ==> r == count + 1
    ensures wasLiked && count > 0 ==> r + 1 == count
    ensures wasLiked && count == 0 ==> r == 0
  {
    if wasLiked then Decremented(count) else count + 1
  }

  /** Liking and then unliking a post, both confirmed by the backend, brings
      the set and the counter back to where they were. */
  lemma LikeThenUnlikeRestores(liked: set<PostId>, postId: PostId, count: nat)
    requires postId !in liked
    ensures Toggled(Toggled(liked, postId, false), postId, true) == liked
    ensures LikeCountAfter(LikeCountAfter(count, false), true) == count
  {
    var r := Toggled(Toggled(liked, postId, false), postId, true);
    assert forall q :: q in r <==> q in liked;
  }

  /** The set `loadLikedPosts` leaves, as written: every fetched id is added
      to whatever the set already held, and nothing is removed. */
  function MergeLoaded(liked: set<PostId>, fetched: seq<PostId>): (r: set<PostId>)
    ensures forall p :: p in r <==> p in liked || p in fetched
  {
    liked + (set p | p in fetched)
  }

  /** The set a load should leave: exactly the posts the backend reports as
      liked by the signed-in user, whatever the set held before. */
  function ReplaceLoaded(fetched: seq<PostId>): (r: set<PostId>)
    ensures forall p :: p in r <==> p in fetched
  {
    set p | p in fetched
  }

  /** Neither logout nor the signed-out event empties the set, and a load only
      adds to it: a post liked by the previous user of the page is still shown
      as liked to the next one, who never liked it. */
  lemma LikesLeakAcrossSessions(previousUserLikes: set<PostId>, nextUserLikes: seq<PostId>, postId: PostId)
    requires postId in previousUserLikes && postId !in nextUserLikes
    ensures postId in MergeLoaded(previousUserLikes, nextUserLikes)
    ensures postId !in ReplaceLoaded(nextUserLikes)
  {
  }
}
