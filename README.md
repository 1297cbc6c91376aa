# Nexus client state and helpers, in Dafny

Nexus is a single-page social-network client (feed, profiles, friends,
notifications, comments) written as one browser script, `app.js`. Almost all
of it builds HTML and forwards calls to a hosted backend. This project models
the part with logic of its own:

- the pure helpers: `truncateText`, `formatTime` (on the elapsed time in
  milliseconds), `getNotificationIcon`, the selection of the other party of a
  friendship, the button a search result gets, and the notification tab
  filters;
- the input checks made before any backend call: sign-up passwords, the
  six-character verification code, image and avatar URLs, and the minimum
  length of a search term (with JavaScript's `trim` written out);
- the global `appState` object as the class `AppStore.AppState`, with the
  handlers that change it in place: navigation, the notification list and
  its unread count, the liked-post set with the optimistic like toggle and
  its revert, per-post comment lists, the search debounce, logout and the
  authentication listener.

Every backend call is a parameter holding its outcome (`Remote<T>` or a
`bool`). The post cards on the page are kept as a map from post id to the
heart and the two counters they show, so that the like and comment counter
updates can be stated.

Module layout: `Outcomes` (shared datatypes), `JsText` (trim, truncation),
`Formatting` (time labels, icons), `Validation` (form checks), `Entities`
(records), `Sequences` (`filter` and its facts), `Notifications`, `Likes`,
`Comments`, `Friends`, `Navigation`, `SearchInput` (debounce) and `AppStore`
(the state object).

Behaviour worth knowing, modelled as the code has it:

- `loadNotificationsList`, run when the notifications page opens and on
  refresh, replaces the list with all of the user's notifications but keeps
  the count `loadNotifications` made from the newest 50, so the badge
  under-reports once an unread notification lies beyond those 50
  (`Notifications.UnlimitedReloadOutnumbers`).
- `markNotificationAsRead` lowers the count even when the notification was
  already read or is not in the list (`Notifications.MarkReadTwiceUnderCounts`);
  the count stays exact only when an unread notification is marked.
- `loadPosts` renders the feed (app.js:1497) before `loadLikedPosts` fills
  the liked set (app.js:1501), and the feed is not rendered again, so on the
  first feed of a session the user's own liked posts show empty hearts and
  the hearts disagree with the set. `AppStore.AppState.ToggleLike` therefore
  lets the set follow the heart read at the click and promises the set back
  on failure only when the heart agreed with it.
- The × button of the search box (`clearSearch`, app.js:926-933) empties the
  box without an input event and does not cancel the pending lookup, so a
  lookup scheduled just before still fills the results;
  `AppStore.AppState.ClearSearch` keeps `pendingSearch` as it finds it. The
  intended debounce of `SearchInput.Step` does not cover this path.
- `appState.friends` is never filled anywhere in `app.js` (only reset), so a
  search result never gets the "Friends" button in practice; and
  `appState.friendRequests` holds requests received by the user, so "Request
  Sent" appears for a user who sent the signed-in user a request.
  `Friends.ButtonFor` states the decision as written.
- A handler that reads `appState.currentUser.id` while nobody is signed in
  throws inside its own `try` and changes nothing; the store methods model
  that case instead of requiring a signed-in user.

## Model

| member | source | states |
|---|---|---|
| JsText.Trim | app.js:2071 | `String.prototype.trim`: the result is a contiguous piece of the input with only whitespace cut from both ends, no whitespace at its edges, and empty exactly when the input is all whitespace |
| JsText.LeadingSpace | app.js:825 | the number of leading whitespace characters: all of them whitespace, and the next one not |
| JsText.TrailingSpace | app.js:825 | the number of trailing whitespace characters: all of them whitespace, and the one before not |
| JsText.TrimIdempotent | app.js:825 | trimming a trimmed string changes nothing |
| JsText.Truncate | app.js:52-56 | empty exactly for a missing or empty text; the text itself when it fits; otherwise a prefix of it followed by "...", of length exactly `maxLength` when `maxLength >= 3` |
| JsText.TruncateIdempotent | app.js:52-56 | truncating an already truncated text to the same length changes nothing |
| Formatting.FormatTime | app.js:58-71 | the buckets are exclusive and exhaustive (under a minute, under an hour, under a day, under a week, older) and each count is the floor of the elapsed time in its unit, within the bucket's range |
| Formatting.FormatTimeMonotone | app.js:58-71 | an older timestamp never gets a more recent bucket, nor a smaller count in the same bucket |
| Formatting.TimeLabel.Text | app.js:66-69 | "Just now", or the count's decimal digits (no leading zero) followed by "m ago", "h ago" or "d ago", the digits reading back as the count |
| Formatting.DecimalRoundTrip | app.js:67-70 | the printed count reads back as the count |
| Formatting.TextInjective | app.js:66-70 | two labels print the same text only if they are the same label |
| Formatting.NotificationIcon | app.js:1347-1356 | each of the five known types gets its own icon, and exactly the unknown types get the bell |
| Validation.Signup | app.js:637-645 | a request is made iff the passwords match and have at least 6 characters; a mismatch is reported first, then a short password; the request carries the form's values |
| Validation.Verification | app.js:714-719 | the joined code is sent iff it has exactly 6 characters; otherwise the incomplete-code message and no call |
| Validation.JoinFront | app.js:714 | `join('')` of the boxes is the first box's value followed by the join of the others |
| Validation.OneCharPerBoxJoins | app.js:714 | six one-character boxes join to a six-character code |
| Validation.ImageUrl | app.js:2325-2335 | a URL is accepted iff it is non-empty after trimming and starts with `http://` or `https://`; the trimmed URL is used; the two refusal messages (same check at app.js:2071-2081) |
| Validation.ImageUrlIgnoresPadding | app.js:2325 | surrounding whitespace never changes the verdict |
| Validation.SearchTerm | app.js:825-842 | a lookup happens iff the trimmed term has at least 2 characters, and uses the trimmed term |
| SearchInput.StepAsWritten | app.js:822-843 | as written: an input that trims to nothing keeps the pending lookup; any other input replaces it |
| SearchInput.Step | app.js:836-842 | intended: every input replaces the pending lookup by the guard's verdict on it |
| SearchInput.LastInputDecides | app.js:822-843 | intended: after a burst of inputs the only pending lookup is for the final value, and none when it trims below 2 characters |
| SearchInput.ClearedBoxStillSearches | app.js:826-833 | as written, "ab" then a box emptied in one edit still searches for "ab" (emptied through "a", it does not); the intended debounce searches for nothing |
| SearchInput.AsWrittenAgreesOnNonEmptyInput | app.js:822-843 | the two debounces agree whenever the final input does not trim to nothing |
| Notifications.LoadedUnreadCount | app.js:1258-1259 | the count a load stores is the number of unread notifications, at most the list length |
| Notifications.UnreadFilterLength | app.js:1259 | the unread filter keeps exactly the unread notifications |
| Notifications.TabFilter | app.js:1431-1447 | the unread tab shows exactly the unread ones (every one of them, as many as the count), the friend_requests tab exactly those of type friend_request (as many as there are), any other tab the whole list |
| Notifications.TabFilterKeepsOrder | app.js:1440-1446 | every tab filters a list part by part, so the shown notifications keep their list order |
| Notifications.UnlimitedReloadOutnumbers | app.js:1242-1290 | the list reloaded without the 50-row limit never has fewer unread notifications than the counted first 50, and has more once an unread one lies beyond them |
| Notifications.FirstIndex | app.js:1369 | the position `find` picks: the first notification with the id, or none |
| Notifications.MarkRead | app.js:1369-1372 | only the found notification changes, and only its read flag |
| Notifications.MarkReadCount | app.js:1369-1375 | the number unread drops by one exactly when the found notification was unread |
| Notifications.MarkAllRead | app.js:1399 | every notification keeps its id and type and is flagged read |
| Notifications.MarkAllReadLeavesNoneUnread | app.js:1399-1400 | after marking all, nothing is unread and the unread tab is empty, matching the count of 0 |
| Notifications.MarkReadKeepsCountExact | app.js:1369-1375 | an exact count stays exact when an unread notification is marked read |
| Notifications.MarkReadTwiceUnderCounts | app.js:1369-1375 | marking a read or absent notification still decrements, so the count under-reports |
| Entities.Decremented | app.js:1375 | `Math.max(0, n - 1)`: one less, never below zero |
| Likes.Toggled | app.js:1657-1667 | the optimistic toggle: a filled heart removes the id, an empty one adds it; no other id moves |
| Likes.Reverted | app.js:1706-1717 | the revert puts the id back as the heart first showed it; no other id moves |
| Likes.RevertUndoesToggle | app.js:1657-1717 | a failed toggle leaves the liked set as it was when the heart agreed with the set |
| Likes.LikeCountAfter | app.js:1696 | after a confirmed like the counter is one more; after an unlike one less, never below zero |
| Likes.LikeThenUnlikeRestores | app.js:1657-1696 | a confirmed like followed by a confirmed unlike restores the set and the counter |
| Likes.MergeLoaded | app.js:1519-1521 | as written, a load adds the fetched ids to the set and removes nothing |
| Likes.ReplaceLoaded | app.js:1510-1521 | intended: after a load the set is exactly the fetched ids |
| Likes.LikesLeakAcrossSessions | app.js:1519-1521 | as written, a post liked in an earlier session stays liked for the next user; replacing the set does not keep it |
| Sequences.Filter | app.js:1442-1445 | `filter` keeps only elements of the list that pass the test, and keeps every one that passes |
| Comments.WithoutComment | app.js:1874-1877 | the kept list has no comment with the id and keeps every other comment of the list |
| Comments.WithoutCommentKeepsOrder | app.js:1875-1876 | removal works part by part, so the remaining comments keep their order |
| Comments.WithoutPresentComment | app.js:1874-1877 | with distinct ids, deleting a present comment removes exactly one entry |
| Comments.WithoutAbsentComment | app.js:1874-1877 | deleting an id not in the list changes nothing |
| Friends.OtherParty | app.js:1188-1191 | the selected profile is one of the row's two, and for a row involving the user it is the other party |
| Friends.FriendsOf | app.js:1188-1191 | the friend list has one entry per row, and the entry at each position is the selector applied to the row at that position |
| Friends.FriendsOfExcludesMe | app.js:1160-1191 | every entry of the friend list is the other party of its row and never the user |
| Friends.ButtonFor | app.js:884-907 | "Friends" iff the user is in the friend list; else "Request Sent" iff a request's `user_id` is theirs; else "Add Friend" |
| Friends.HasProfile | app.js:884 | `some` over the friend list by id |
| Friends.HasRequestFrom | app.js:885 | `some` over the request list by `user_id` |
| Navigation.ScreenFor | app.js:501-518 | each known page name selects its screen; any other name selects the feed |
| Navigation.DispatchRoundTrip | app.js:501-518 | each screen is reached by its own name; a name comes back from its screen iff it is known |
| AppStore.AppState.constructor | app.js:6-25 | the initial state: no session, page "loading", tab "users", empty lists, set and maps |
| AppStore.AppState.NavigateTo | app.js:501-518 | the page name is stored as given, the screen rendered, and opening search resets the tab to "users" |
| AppStore.AppState.HandleSignup | app.js:630-661 | a passing form is stored in `tempSignupData`; a refused one changes nothing |
| AppStore.AppState.LoadNotifications | app.js:1242-1266 | a successful load replaces the list and makes the count exact; a failure changes nothing |
| AppStore.AppState.LoadNotificationsList | app.js:1268-1290 | a successful load replaces the list and keeps the count, which then stays exact only if the new list has as many unread notifications as the old |
| AppStore.AppState.MarkNotificationAsRead | app.js:1358-1386 | on success the found notification is flagged and the count decremented (floored); the count stays exact when it was unread |
| AppStore.AppState.MarkAllNotificationsAsRead | app.js:1388-1413 | on success the loop flags every notification and the count becomes an exact 0 |
| AppStore.AppState.LoadLikedPostsAsWritten | app.js:1510-1525 | the loop adds every fetched id to the set it finds |
| AppStore.AppState.LoadLikedPosts | app.js:1510-1525 | intended: the loop rebuilds the set, which then holds exactly the fetched ids |
| AppStore.AppState.ToggleLike | app.js:1646-1719 | signed out nothing changes; the heart flips and the id follows the heart read at the click; on success only the counter moves; on failure the heart and counter are as before, and the set is as before when the heart agreed with it; hearts that agreed with the set still agree |
| AppStore.AppState.LoadComments | app.js:1737-1754 | a successful load replaces that post's list |
| AppStore.AppState.DeleteComment | app.js:1861-1890 | after confirmation and success only that post's list loses the comment, and its card shows one comment fewer (floored) |
| AppStore.AppState.AddMediaToPost | app.js:2069-2086 | an accepted URL becomes the new post's media; a refused one changes nothing |
| AppStore.AppState.HandleSearchInputAsWritten | app.js:822-843 | as written: an input that trims to nothing leaves the pending lookup as it was; any other input replaces it with the guard's verdict |
| AppStore.AppState.HandleSearchInput | app.js:836-842 | intended: every input, an emptied box included, makes the pending lookup the guard's verdict on it |
| AppStore.AppState.SearchTimerFires | app.js:838-842 | the pending lookup is made and no longer pending |
| AppStore.AppState.ReceiveSearchResults | app.js:845-863 | a successful lookup replaces the results |
| AppStore.AppState.ClearSearch | app.js:926-933 | the results are emptied |
| AppStore.AppState.ClearSession | app.js:803-809 | user, profile, notifications, count, requests, friends and results are cleared |
| AppStore.AppState.Logout | app.js:800-815 | unless `signOut` throws, the session slots are cleared; the liked set is not |
| AppStore.AppState.HandleAuthEvent | app.js:2537-2552 | signed out: session cleared and the sign-in page shown; signed in with a user: only the user recorded; otherwise nothing changes; the friends tab and the liked set never change |

## Findings

| source | as written | input that shows it | evidently intended | confidence | as-written member | corrected member |
|---|---|---|---|---|---|---|
| app.js:1519-1521 | `loadLikedPosts` only adds to `likedPosts`, and neither `handleLogout` (app.js:803-809) nor the signed-out listener clears it; the page is not reloaded between sessions | user A likes post p, logs out; user B, who never liked p, signs in and the feed loads with B's likes `[]`: p is still in the set and shown liked. `loadPosts` renders the new feed (app.js:1497, reading the set at app.js:1547) before `loadLikedPosts` runs (app.js:1501), so even a replacing load would leave that first render showing p liked, and only the renders after the load would be right | a load replaces the set with the signed-in user's likes | medium, not executed | Likes.LikesLeakAcrossSessions | AppStore.AppState.LoadLikedPosts |
| app.js:826-833 | an input that trims to nothing returns before `clearTimeout`, so the lookup scheduled for the previous term still fires | type "ab", then empty the box in a single edit (select all and delete) within 300 ms: `searchUsers("ab")` runs and fills the results of an empty box | every input cancels the pending lookup; an empty box searches for nothing | medium, not executed | SearchInput.ClearedBoxStillSearches | SearchInput.LastInputDecides |

## Left out

- All backend calls (auth, table queries, the notification RPC): each is an outcome parameter; what the backend stores or returns is not modelled.
- HTML templates, `innerHTML`/`classList`/`style` changes, modals, focus handling, messages and the `confirm` dialog (a `confirmed` parameter of `DeleteComment`).
- Timers: the 300 ms debounce delay, the delayed moves to other pages and message timeouts; only which lookup is pending is modelled.
- Concurrency: interleaved awaits, such as a second like click before the first call returns or a double click on "mark as read"; each handler runs as one step.
- `Date` handling: `formatTime` takes the elapsed milliseconds; an invalid date (NaN) and the text of `toLocaleDateString` are not modelled (`CalendarDate` stands for it).
- The image load probes and the reading of counters back out of the page text: counters are integers on the card map.
- String lengths are counted in characters, not UTF-16 code units; they differ only for characters outside the Basic Multilingual Plane.
- Loading posts, friend requests, friend counts, profiles (including the profile fallback on sign-in), sending, accepting and rejecting friend requests, adding comments and creating posts: they only forward to the backend and replace a slot.
- AppStore.AppState.ToggleLike: requires the clicked post's card to be on the page, since the clicked button lives on it.
- AppStore.AppState.LoadLikedPosts: the corrected load makes every render after it right; clearing the set on sign-out, which the first render of the next user's feed would also need, is not modelled.
- AppStore.AppState.Logout: the move to the sign-in page after one second is left to the timer and not part of the method.
