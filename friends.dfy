/** Friendship rows as the client reads them: which side of a row is the
    friend of the signed-in user, and which button a search result gets. */
module Friends {

  import opened Entities

  /** The two joined profiles belong to the two ids of the row, and the row is
      not a user befriending themselves. */
  predicate WellFormed(f: Friendship)
  {
    f.user.id == f.userId && f.friend.id == f.friendId && f.userId != f.friendId
  }

  predicate Involves(f: Friendship, me: UserId)
  {
    f.userId == me || f.friendId == me
  }

  /** The selector `loadFriendsForSearch` maps over the accepted rows: the
      joined `friend` profile when the signed-in user sent the request, the
      joined `user` profile otherwise. */
  function OtherParty(f: Friendship, me: UserId): (p: Profile)
    ensures p == f.user || p == f.friend
    ensures WellFormed(f) && Involves(f, me) ==> p.id != me && (p.id == f.userId || p.id == f.friendId)
  {
    if f.userId == me then f.friend else f.user
  }

  /** The friend list built from the rows of one query: the selector applied
      to each row, in row order. */
  function FriendsOf(rows: seq<Friendship>, me: UserId): (fs: seq<Profile>)
    ensures |fs| == |rows|
    ensures forall i :: 0 <= i < |rows| ==> fs[i] == OtherParty(rows[i], me)
  {
    if rows == [] then []
    else
      assert forall i :: 1 <= i < |rows| ==> rows[i] == rows[1..][i - 1];
      [OtherParty(rows[0], me)] + FriendsOf(rows[1..], me)
  }

  /** The query returns only rows that involve the signed-in user, so the list
      never shows the user as their own friend, and every entry is the other
      party of the row at the same position. */
  lemma FriendsOfExcludesMe(rows: seq<Friendship>, me: UserId)
    requires forall i :: 0 <= i < |rows| ==> WellFormed(rows[i]) && Involves(rows[i], me)
    ensures forall i :: 0 <= i < |rows| ==> FriendsOf(rows, me)[i].id != me
    ensures forall i :: 0 <= i < |rows| ==>
              FriendsOf(rows, me)[i].id == (if rows[i].userId == me then rows[i].friendId else rows[i].userId)
  {
  }

  /** The button a search result shows. */
  datatype FriendButton = AlreadyFriends | RequestSent | AddFriend

  /** `renderSearchResults`: a user in the friend list gets the disabled
      "Friends" button; otherwise a user matching the `user_id` of an entry
      of the friend-request list gets the disabled "Request Sent" button;
      everyone else gets "Add Friend". The friend test wins over the request
      test. */
  function ButtonFor(userId: UserId, friends: seq<Profile>, requests: seq<Friendship>): (b: FriendButton)
    ensures b == AlreadyFriends <==> exists i :: 0 <= i < |friends| && friends[i].id == userId
    ensures b == RequestSent <==> (forall i :: 0 <= i < |friends| ==> friends[i].id != userId)
                                  && (exists j :: 0 <= j < |requests| && requests[j].userId == userId)
    ensures b == AddFriend <==> (forall i :: 0 <= i < |friends| ==> friends[i].id != userId)
                                && (forall j :: 0 <= j < |requests| ==> requests[j].userId != userId)
  {
    if HasProfile(friends, userId) then AlreadyFriends
    else if HasRequestFrom(requests, userId) then RequestSent
    else AddFriend
  }

  /** `friends.some(f => f.id === userId)`. */
  function HasProfile(ps: seq<Profile>, userId: UserId): (b: bool)
    ensures b <==> exists i :: 0 <= i < |ps| && ps[i].id == userId
  {
    if ps == [] then false
    else
      assert forall i :: 1 <= i < |ps| ==> ps[i] == ps[1..][i - 1];
      ps[0].id == userId || HasProfile(ps[1..], userId)
  }

  /** `friendRequests.some(r => r.user_id === userId)`. */
  function HasRequestFrom(rs: seq<Friendship>, userId: UserId): (b: bool)
    ensures b <==> exists i :: 0 <= i < |rs| && rs[i].userId == userId
  {
    if rs == [] then false
    else
      assert forall i :: 1 <= i < |rs| ==> rs[i] == rs[1..][i - 1];
      rs[0].userId == userId || HasRequestFrom(rs[1..], userId)
  }
}
