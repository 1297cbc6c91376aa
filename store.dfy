/** The client's single application-state object, `appState`, and the
    handlers that update it in place. Every call to the backend is replaced by
    a parameter holding its outcome; rendering is left out. A handler that
    reads `appState.currentUser.id` inside its `try` block while nobody is
    signed in throws there, and its `catch` only reports the error: such a
    handler changes nothing. */
module AppStore {

  import opened Outcomes
  import opened Entities
  import opened Validation
  import opened Navigation
  import opened Notifications
  import opened Likes
  import opened Comments
  import opened SearchInput

  /** An event pushed by the authentication service's state-change
      subscription. */
  datatype AuthEvent = SignedIn(user: Option<UserId>) | SignedOutEvent | OtherAuthEvent

  class AppState {
    var currentUser: Option<UserId>
    var currentProfile: Option<Profile>
    var currentPage: string
    var tempSignupData: Option<SignupForm>
    var currentPostComments: map<PostId, seq<Comment>>
    var likedPosts: set<PostId>
    var postMediaUrls: map<string, string>
    var notifications: seq<Notification>
    var unreadNotifications: nat
    var friends: seq<Profile>
    var friendRequests: seq<Friendship>
    var searchResults: seq<Profile>
    /** The term the debounce timer will search for, if any. */
    var pendingSearch: Option<string>
    var currentFriendsTab: string
    /** The post cards on the page, by post id (the page's own state, kept
        here so that the like and comment counters can be stated). */
    var cards: map<PostId, PostCard>

    /** The badge count agrees with the notification list. */
    predicate UnreadExact()
      reads this
    {
      unreadNotifications == CountUnread(notifications)
    }

    /** Every rendered card's heart agrees with the liked-post set. */
    predicate HeartsAgree()
      reads this
    {
      forall p :: p in cards ==> (cards[p].liked <==> p in likedPosts)
    }

    /** Nothing of a previous session is left in the session slots. */
    predicate SessionCleared()
      reads this
    {
      currentUser == None && currentProfile == None && notifications == [] && unreadNotifications == 0
      && friendRequests == [] && friends == [] && searchResults == []
    }

    /** The initial `appState`. */
    constructor ()
      ensures SessionCleared() && UnreadExact()
      ensures currentPage == "loading" && currentFriendsTab == "users"
      ensures tempSignupData == None && pendingSearch == None
      ensures currentPostComments == map[] && likedPosts == {} && postMediaUrls == map[] && cards == map[]
    {
      currentUser := None;
      currentProfile := None;
      currentPage := "loading";
      tempSignupData := None;
      currentPostComments := map[];
      likedPosts := {};
      postMediaUrls := map[];
      notifications := [];
      unreadNotifications := 0;
      friends := [];
      friendRequests := [];
      searchResults := [];
      pendingSearch := None;
      currentFriendsTab := "users";
      cards := map[];
    }

    /** `navigateTo`: the page name is stored as given, the screen of that
        name is rendered (the feed for an unknown name), and opening search
        resets its tab to `users`. */
    method NavigateTo(page: string) returns (screen: Screen)
      modifies this`currentPage, this`currentFriendsTab
      ensures currentPage == page
      ensures screen == ScreenFor(page)
      ensures page !in KnownPages() ==> screen == FeedScreen
      ensures currentFriendsTab == if page == "search" then "users" else old(currentFriendsTab)
    {
      currentPage := page;
      screen := ScreenFor(page);
      if page == "search" {
        currentFriendsTab := "users";
      }
    }

    /** `handleSignup`: a form that passes the checks is kept in
        `tempSignupData` before `signUp` is called; a refused one changes
        nothing. */
    method HandleSignup(form: SignupForm) returns (r: Submission<SignupRequest>)
      modifies this`tempSignupData
      ensures r == Signup(form)
      ensures r.Submit? ==> tempSignupData == Some(form)
      ensures r.Refuse? ==> tempSignupData == old(tempSignupData)
    {
      r := Signup(form);
      if r.Submit? {
        tempSignupData := Some(form);
      }
    }

    /** `loadNotifications`: a successful load replaces the list and sets the
        count to the number of unread notifications in it. */
    method LoadNotifications(result: Remote<seq<Notification>>)
      modifies this`notifications, this`unreadNotifications
      ensures currentUser.Some? && result.Ok? ==>
                notifications == result.data && unreadNotifications == CountUnread(result.data) && UnreadExact()
      ensures currentUser.None? || result.Failed? ==>
                notifications == old(notifications) && unreadNotifications == old(unreadNotifications)
    {
      if currentUser.None? || result.Failed? {
        return;
      }
      notifications := result.data;
      unreadNotifications := LoadedUnreadCount(result.data);
    }

    /** `loadNotificationsList`, run when the notifications page opens and on
        refresh: a successful load replaces the list with every notification
        of the user (no limit), and the count is left as it was. An exact
        count therefore stays exact only when the new list has as many unread
        notifications as the old one (see `UnlimitedReloadOutnumbers`). */
    method LoadNotificationsList(result: Remote<seq<Notification>>)
      modifies this`notifications
      ensures currentUser.Some? && result.Ok? ==>
                notifications == result.data && unreadNotifications == old(unreadNotifications)
      ensures currentUser.Some? && result.Ok? && old(UnreadExact()) ==>
                (UnreadExact() <==> CountUnread(result.data) == CountUnread(old(notifications)))
      ensures currentUser.None? || result.Failed? ==> notifications == old(notifications)
    {
      if currentUser.None? || result.Failed? {
        return;
      }
      notifications := result.data;
    }

    /** `markNotificationAsRead`: once the backend confirms, the notification
        found by id is flagged read and the count drops by one, never below
        zero. An exact count stays exact when the notification was unread. */
    method MarkNotificationAsRead(id: NotificationId, ok: bool)
      modifies this`notifications, this`unreadNotifications
      ensures currentUser.Some? && ok ==>
                notifications == MarkRead(old(notifications), id)
                && unreadNotifications == Decremented(old(unreadNotifications))
      ensures currentUser.None? || !ok ==>
                notifications == old(notifications) && unreadNotifications == old(unreadNotifications)
      ensures (old(UnreadExact()) && FirstIndex(old(notifications), id) < |old(notifications)|
               && !old(notifications)[FirstIndex(old(notifications), id)].isRead) ==> UnreadExact()
    {
      if currentUser.None? || !ok {
        return;
      }
      if UnreadExact() && FirstIndex(notifications, id) < |notifications| && !notifications[FirstIndex(notifications, id)].isRead {
        MarkReadKeepsCountExact(notifications, id, unreadNotifications);
      }
      notifications := MarkRead(notifications, id);
      unreadNotifications := Decremented(unreadNotifications);
    }

    /** `markAllNotificationsAsRead`: once the backend confirms, every
        notification is flagged read, one after the other, and the count is
        zero, which is exact. */
    method MarkAllNotificationsAsRead(ok: bool)
      modifies this`notifications, this`unreadNotifications
      ensures currentUser.Some? && ok ==>
                notifications == MarkAllRead(old(notifications)) && unreadNotifications == 0 && UnreadExact()
      ensures currentUser.None? || !ok ==>
                notifications == old(notifications) && unreadNotifications == old(unreadNotifications)
    {
      if currentUser.None? || !ok {
        return;
      }
      var i := 0;
      while i < |notifications|
        invariant 0 <= i <= |notifications| == |old(notifications)|
        invariant forall k :: 0 <= k < i ==> notifications[k] == old(notifications)[k].(isRead := true)
        invariant forall k :: i <= k < |notifications| ==> notifications[k] == old(notifications)[k]
      {
        notifications := notifications[i := notifications[i].(isRead := true)];
        i := i + 1;
      }
      unreadNotifications := 0;
      MarkAllReadLeavesNoneUnread(old(notifications));
    }

    /** `loadLikedPosts` as written: each fetched id is added to the set,
        which is never emptied first. */
    method LoadLikedPostsAsWritten(result: Remote<seq<PostId>>)
      modifies this`likedPosts
      ensures currentUser.Some? && result.Ok? ==> likedPosts == MergeLoaded(old(likedPosts), result.data)
      ensures currentUser.None? || result.Failed? ==> likedPosts == old(likedPosts)
    {
      if currentUser.None? || result.Failed? {
        return;
      }
      var data := result.data;
      var i := 0;
      while i < |data|
        invariant 0 <= i <= |data|
        invariant likedPosts == old(likedPosts) + set k | 0 <= k < i :: data[k]
      {
        likedPosts := likedPosts + {data[i]};
        i := i + 1;
      }
      assert forall p :: p in data <==> exists k :: 0 <= k < |data| && data[k] == p;
    }

    /** `loadLikedPosts` with the set rebuilt from the fetched rows: after a
        successful load the set holds exactly the posts the signed-in user
        has liked, whatever an earlier session left in it. */
    method LoadLikedPosts(result: Remote<seq<PostId>>)
      modifies this`likedPosts
      ensures currentUser.Some? && result.Ok? ==> likedPosts == ReplaceLoaded(result.data)
      ensures currentUser.Some? && result.Ok? ==> forall p :: p in likedPosts <==> p in result.data
      ensures currentUser.None? || result.Failed? ==> likedPosts == old(likedPosts)
    {
      if currentUser.None? || result.Failed? {
        return;
      }
      var data := result.data;
      var loaded: set<PostId> := {};
      var i := 0;
      while i < |data|
        invariant 0 <= i <= |data|
        invariant loaded == set k | 0 <= k < i :: data[k]
      {
        loaded := loaded + {data[i]};
        i := i + 1;
      }
      assert forall p :: p in data <==> exists k :: 0 <= k < |data| && data[k] == p;
      likedPosts := loaded;
    }

    /** `toggleLike` on the card of `postId`, whose heart the user clicked.
        Signed out, nothing happens. Otherwise the heart and the set flip at
        once; when the backend confirms, the card's counter moves by one
        (not below zero); when it fails, the heart and the set go back to
        what the heart showed, and the counter was never touched. */
    method ToggleLike(postId: PostId, ok: bool)
      requires postId in cards
      modifies this`likedPosts, this`cards
      ensures currentUser.None? ==> likedPosts == old(likedPosts) && cards == old(cards)
      ensures currentUser.Some? && ok ==>
                var was := old(cards[postId]);
                likedPosts == Toggled(old(likedPosts), postId, was.liked)
                && cards == old(cards)[postId := was.(liked := !was.liked, likes := LikeCountAfter(was.likes, was.liked))]
      ensures currentUser.Some? && !ok ==>
                likedPosts == Reverted(Toggled(old(likedPosts), postId, old(cards[postId].liked)), postId, old(cards[postId].liked))
                && cards == old(cards)
      ensures !ok && old(HeartsAgree()) ==> likedPosts == old(likedPosts) && cards == old(cards)
      ensures old(HeartsAgree()) ==> HeartsAgree()
    {
      if currentUser.None? {
        return;
      }
      var card := cards[postId];
      var wasLiked := card.liked;
      // the optimistic update
      cards := cards[postId := card.(liked := !wasLiked)];
      likedPosts := Toggled(likedPosts, postId, wasLiked);
      if ok {
        cards := cards[postId := cards[postId].(likes := LikeCountAfter(card.likes, wasLiked))];
      } else {
        // the error handler reads the flipped heart and flips it back
        cards := cards[postId := cards[postId].(liked := wasLiked)];
        likedPosts := Reverted(likedPosts, postId, wasLiked);
        assert cards == old(cards);
        if old(HeartsAgree()) {
          RevertUndoesToggle(old(likedPosts), postId, wasLiked);
        }
      }
    }

    /** `loadComments`: a successful load replaces that post's list. */
    method LoadComments(postId: PostId, result: Remote<seq<Comment>>)
      modifies this`currentPostComments
      ensures result.Ok? ==> currentPostComments == old(currentPostComments)[postId := result.data]
      ensures result.Failed? ==> currentPostComments == old(currentPostComments)
    {
      if result.Ok? {
        currentPostComments := currentPostComments[postId := result.data];
      }
    }

    /** `deleteComment`: after the user confirms and the backend deletes it,
        the comment leaves that post's list (if the list is loaded), the rest
        keep their order, other posts' lists are untouched, and the post's
        card shows one comment fewer (not below zero). */
    method DeleteComment(commentId: CommentId, postId: PostId, confirmed: bool, ok: bool)
      modifies this`currentPostComments, this`cards
      ensures confirmed && currentUser.Some? && ok ==>
                currentPostComments ==
                  (if postId in old(currentPostComments)
                   then old(currentPostComments)[postId := WithoutComment(old(currentPostComments)[postId], commentId)]
                   else old(currentPostComments))
                && cards == (if postId in old(cards)
                             then old(cards)[postId := old(cards)[postId].(comments := Decremented(old(cards)[postId].comments))]
                             else old(cards))
      ensures !(confirmed && currentUser.Some? && ok) ==>
                currentPostComments == old(currentPostComments) && cards == old(cards)
      ensures forall p :: p in old(currentPostComments) && p != postId ==>
                p in currentPostComments && currentPostComments[p] == old(currentPostComments)[p]
    {
      if !confirmed || currentUser.None? || !ok {
        return;
      }
      if postId in currentPostComments {
        currentPostComments := currentPostComments[postId := WithoutComment(currentPostComments[postId], commentId)];
      }
      if postId in cards {
        cards := cards[postId := cards[postId].(comments := Decremented(cards[postId].comments))];
      }
    }

    /** `addMediaToPost`: an accepted URL (trimmed, http or https) becomes the
        media of the post being written; a refused one changes nothing. */
    method AddMediaToPost(input: string) returns (r: Submission<string>)
      modifies this`postMediaUrls
      ensures r == ImageUrl(input)
      ensures r.Submit? ==> postMediaUrls == old(postMediaUrls)["new" := r.request]
      ensures r.Refuse? ==> postMediaUrls == old(postMediaUrls)
    {
      r := ImageUrl(input);
      if r.Submit? {
        postMediaUrls := postMediaUrls["new" := r.request];
      }
    }

    /** `handleSearchInput` as written: an input that trims to nothing leaves
        the pending lookup in place. */
    method HandleSearchInputAsWritten(input: string)
      modifies this`pendingSearch
      ensures pendingSearch == StepAsWritten(old(pendingSearch), input)
      ensures JsText.Trim(input) == [] ==> pendingSearch == old(pendingSearch)
    {
      pendingSearch := StepAsWritten(pendingSearch, input);
    }

    /** `handleSearchInput` as intended, with an emptied box cancelling the
        pending lookup like any other input. */
    method HandleSearchInput(input: string)
      modifies this`pendingSearch
      ensures pendingSearch == Step(old(pendingSearch), input)
      ensures pendingSearch.Some? <==> |JsText.Trim(input)| >= MinSearchLength
    {
      pendingSearch := Step(pendingSearch, input);
    }

    /** The quiet period ends: the pending lookup, if any, is made. */
    method SearchTimerFires() returns (term: Option<string>)
      modifies this`pendingSearch
      ensures term == old(pendingSearch) && pendingSearch == None
    {
      term := pendingSearch;
      pendingSearch := None;
    }

    /** `searchUsers` once the backend answered: a successful lookup replaces
        the results. */
    method ReceiveSearchResults(result: Remote<seq<Profile>>)
      modifies this`searchResults
      ensures currentUser.Some? && result.Ok? ==> searchResults == result.data
      ensures currentUser.None? || result.Failed? ==> searchResults == old(searchResults)
    {
      if currentUser.Some? && result.Ok? {
        searchResults := result.data;
      }
    }

    /** `clearSearch`: the results are emptied. */
    method ClearSearch()
      modifies this`searchResults
      ensures searchResults == []
    {
      searchResults := [];
    }

    /** The session slots `handleLogout` and the signed-out event reset. */
    method ClearSession()
      modifies this`currentUser, this`currentProfile, this`notifications, this`unreadNotifications,
               this`friendRequests, this`friends, this`searchResults
      ensures SessionCleared() && UnreadExact()
    {
      currentUser := None;
      currentProfile := None;
      notifications := [];
      unreadNotifications := 0;
      friendRequests := [];
      friends := [];
      searchResults := [];
    }

    /** `handleLogout`: unless `signOut` throws, the session slots are
        cleared. The liked-post set, the comment lists and the cards stay.
        The delayed move to the sign-in page is left to the timer. */
    method Logout(signOutThrew: bool)
      modifies this`currentUser, this`currentProfile, this`notifications, this`unreadNotifications,
               this`friendRequests, this`friends, this`searchResults
      ensures !signOutThrew ==> SessionCleared() && UnreadExact()
      ensures signOutThrew ==> currentUser == old(currentUser) && currentProfile == old(currentProfile)
                               && notifications == old(notifications)
                               && unreadNotifications == old(unreadNotifications)
                               && friendRequests == old(friendRequests) && friends == old(friends)
                               && searchResults == old(searchResults)
    {
      if !signOutThrew {
        ClearSession();
      }
    }

    /** The authentication state-change listener: signing out clears the
        session slots and shows the sign-in page; signing in with a user
        records the user; other events change nothing. */
    method HandleAuthEvent(event: AuthEvent) returns (screen: Option<Screen>)
      modifies this`currentUser, this`currentProfile, this`notifications, this`unreadNotifications,
               this`friendRequests, this`friends, this`searchResults, this`currentPage, this`currentFriendsTab
      ensures event.SignedOutEvent? ==>
                SessionCleared() && UnreadExact() && currentPage == "auth" && screen == Some(AuthScreen)
      ensures event.SignedIn? && event.user.Some? ==>
                currentUser == event.user && screen == None && currentProfile == old(currentProfile)
                && notifications == old(notifications) && unreadNotifications == old(unreadNotifications)
      ensures event.SignedIn? && event.user.Some? ==> currentPage == old(currentPage)
      ensures (event.OtherAuthEvent? || (event.SignedIn? && event.user.None?)) ==>
                screen == None && currentUser == old(currentUser) && currentPage == old(currentPage)
                && notifications == old(notifications) && unreadNotifications == old(unreadNotifications)
      ensures !event.SignedOutEvent? ==>
                currentProfile == old(currentProfile) && friends == old(friends)
                && friendRequests == old(friendRequests) && searchResults == old(searchResults)
      ensures currentFriendsTab == old(currentFriendsTab)
      ensures likedPosts == old(likedPosts)
    {
      screen := None;
      match event {
        case SignedOutEvent =>
          ClearSession();
          var s := NavigateTo("auth");
          screen := Some(s);
        case SignedIn(user) =>
          if user.Some? {
            currentUser := user;
          }
        case OtherAuthEvent =>
      }
    }
  }
}
