/** The records the client holds copies of. Every one is owned by the
    backend; only the fields the modelled logic reads are kept. */
module Entities {

  type UserId = string
  type PostId = string
  type CommentId = string
  type NotificationId = string

  /** A row of `profiles`. */
  datatype Profile = Profile(id: UserId, firstName: string, lastName: string, avatarUrl: string, bio: string)

  /** A row of `notifications`; `kind` is its `type` column. */
  datatype Notification = Notification(id: NotificationId, kind: string, isRead: bool)

  /** A row of `comments`. */
  datatype Comment = Comment(id: CommentId, postId: PostId, authorId: UserId, content: string)

  /** A row of `friendships` with the two joined profiles: `userId` sent the
      request, `friendId` received it. */
  datatype Friendship = Friendship(id: string, userId: UserId, friendId: UserId, status: string,
                                   user: Profile, friend: Profile)

  /** What the page shows on one rendered post card: whether its heart is
      filled and the like and comment counts in its statistics line. */
  datatype PostCard = PostCard(liked: bool, likes: nat, comments: nat)

  /** `Math.max(0, count - 1)`, the way every displayed counter is lowered. */
  function Decremented(count: nat): (r: nat)
    ensures count > 0 ==> r + 1 == count
    ensures count == 0 ==> r == 0
  {
    if count == 0 then 0 else count - 1
  }
}
