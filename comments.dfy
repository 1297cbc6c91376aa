/** The per-post comment lists of the store and the local part of
    `deleteComment`. */
module Comments {

  import opened Entities
  import opened Sequences

  predicate IdsUnique(cs: seq<Comment>)
  {
    forall i, j :: 0 <= i < j < |cs| ==> cs[i].id != cs[j].id
  }

  /** The test `deleteComment` filters with: the comment is not the deleted one. */
  function Others(commentId: CommentId): Comment -> bool
  {
    (c: Comment) => c.id != commentId
  }

  /** The list `deleteComment` keeps: every comment whose id differs from the
      deleted one, in the order the list had. */
  function WithoutComment(cs: seq<Comment>, commentId: CommentId): (r: seq<Comment>)
    ensures |r| <= |cs|
    ensures forall i :: 0 <= i < |r| ==> r[i].id != commentId && r[i] in cs
    ensures forall i :: 0 <= i < |cs| && cs[i].id != commentId ==> cs[i] in r
  {
    Filter(cs, Others(commentId))
  }

  /** Deleting from a list deletes from each of its parts in place: the order
      of the remaining comments is the order they had. */
  lemma WithoutCommentKeepsOrder(a: seq<Comment>, b: seq<Comment>, commentId: CommentId)
    ensures WithoutComment(a + b, commentId) == WithoutComment(a, commentId) + WithoutComment(b, commentId)
  {
    FilterAppend(a, b, Others(commentId));
  }

  /** Deleting a comment that is in a list of distinct ids removes exactly one
      entry, matching the one the card's comment counter loses. */
  lemma {:induction false} WithoutPresentComment(cs: seq<Comment>, commentId: CommentId, k: nat)
    requires IdsUnique(cs)
    requires k < |cs| && cs[k].id == commentId
    ensures |WithoutComment(cs, commentId)| + 1 == |cs|
  {
    var keep := Others(commentId);
    FilterLength(cs, keep);
    CountOthers(cs, commentId, k);
  }

  lemma {:induction false} CountOthers(cs: seq<Comment>, commentId: CommentId, k: nat)
    requires IdsUnique(cs)
    requires k < |cs| && cs[k].id == commentId
    ensures CountWhere(cs, Others(commentId)) + 1 == |cs|
  {
    var keep := Others(commentId);
    if k == 0 {
      AllOthersKept(cs[1..], commentId);
      FilterLength(cs[1..], keep);
      FilterAll(cs[1..], keep);
    } else {
      CountOthers(cs[1..], commentId, k - 1);
    }
  }

  lemma AllOthersKept(cs: seq<Comment>, commentId: CommentId)
    requires forall i :: 0 <= i < |cs| ==> cs[i].id != commentId
    ensures forall i :: 0 <= i < |cs| ==> Others(commentId)(cs[i])
  {
  }

  /** Deleting an id that is not in the list changes nothing. */
  lemma WithoutAbsentComment(cs: seq<Comment>, commentId: CommentId)
    requires forall i :: 0 <= i < |cs| ==> cs[i].id != commentId
    ensures WithoutComment(cs, commentId) == cs
  {
    FilterAll(cs, Others(commentId));
  }
}
