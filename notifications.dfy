/** The notification list and its unread count: what a load, marking one
    notification read and marking all read do to them, and the tab filters
    of the notifications page. */
module Notifications {

  import opened Entities
  import opened Sequences

  predicate IsUnread(n: Notification) { !n.isRead }

  predicate IsFriendRequest(n: Notification) { n.kind == "friend_request" }

  /** The number of unread notifications in a list: the value the badge
      should show. */
  function CountUnread(ns: seq<Notification>): nat
  {
    if ns == [] then 0 else (if ns[0].isRead then 0 else 1) + CountUnread(ns[1..])
  }

  /** The count `loadNotifications` stores: the length of the list filtered
      on `!is_read`. It is the number of unread notifications. */
  function LoadedUnreadCount(ns: seq<Notification>): (n: nat)
    ensures n == CountUnread(ns)
    ensures n <= |ns|
  {
    UnreadFilterLength(ns);
    |Filter(ns, IsUnread)|
  }

  lemma {:induction false} UnreadFilterLength(ns: seq<Notification>)
    ensures |Filter(ns, IsUnread)| == CountUnread(ns)
  {
    if ns != [] {
      UnreadFilterLength(ns[1..]);
    }
  }

  /** `switchNotificationsTab`: the `unread` tab shows the unread
      notifications, the `friend_requests` tab those of type
      `friend_request`, and every other tab the whole list, in list order. */
  function TabFilter(ns: seq<Notification>, tab: string): (r: seq<Notification>)
    ensures tab == "unread" ==> |r| == CountUnread(ns)
                                && forall i :: 0 <= i < |r| ==> !r[i].isRead && r[i] in ns
    ensures tab == "unread" ==> forall i :: 0 <= i < |ns| && !ns[i].isRead ==> ns[i] in r
    ensures tab == "friend_requests" ==>
              forall i :: 0 <= i < |r| ==> r[i].kind == "friend_request" && r[i] in ns
    ensures tab == "friend_requests" ==>
              forall i :: 0 <= i < |ns| && ns[i].kind == "friend_request" ==> ns[i] in r
    ensures tab == "friend_requests" ==> |r| == CountWhere(ns, IsFriendRequest)
    ensures tab != "unread" && tab != "friend_requests" ==> r == ns
  {
    match tab
    case "unread" =>
      UnreadFilterLength(ns);
      Filter(ns, IsUnread)
    case "friend_requests" =>
      FilterLength(ns, IsFriendRequest);
      Filter(ns, IsFriendRequest)
    case _ => ns
  }

  /** Each tab filters a concatenation part by part, so the notifications it
      shows keep the order they have in the list. */
  lemma TabFilterKeepsOrder(a: seq<Notification>, b: seq<Notification>, tab: string)
    ensures TabFilter(a + b, tab) == TabFilter(a, tab) + TabFilter(b, tab)
  {
    FilterAppend(a, b, IsUnread);
    FilterAppend(a, b, IsFriendRequest);
  }

  /** The position of the first notification with the given id, as
      `Array.prototype.find` looks for it; `|ns|` when there is none. */
  function FirstIndex(ns: seq<Notification>, id: NotificationId): (k: nat)
    ensures k <= |ns|
    ensures k < |ns| ==> ns[k].id == id
    ensures forall i :: 0 <= i < k ==> ns[i].id != id
  {
    if ns == [] then 0
    else if ns[0].id == id then 0
    else 1 + FirstIndex(ns[1..], id)
  }

  /** The local part of `markNotificationAsRead`: the notification found by id
      gets its read flag set; nothing else in the list changes. */
  function MarkRead(ns: seq<Notification>, id: NotificationId): (r: seq<Notification>)
    ensures |r| == |ns|
    ensures forall i :: 0 <= i < |ns| && i != FirstIndex(ns, id) ==> r[i] == ns[i]
    ensures FirstIndex(ns, id) < |ns| ==> r[FirstIndex(ns, id)] == ns[FirstIndex(ns, id)].(isRead := true)
  {
    var k := FirstIndex(ns, id);
    if k == |ns| then ns else ns[k := ns[k].(isRead := true)]
  }

  /** Marking a notification read lowers the number of unread ones by one
      exactly when it was found and was unread. */
  lemma {:induction false} MarkReadCount(ns: seq<Notification>, id: NotificationId)
    ensures var k := FirstIndex(ns, id);
            CountUnread(MarkRead(ns, id)) == CountUnread(ns) - (if k < |ns| && !ns[k].isRead then 1 else 0)
  {
    if ns != [] && ns[0].id != id {
      MarkReadCount(ns[1..], id);
      assert MarkRead(ns, id)[1..] == MarkRead(ns[1..], id);
    } else if ns != [] {
      assert MarkRead(ns, id)[1..] == ns[1..];
    }
  }

  /** The local part of `markAllNotificationsAsRead`: every flag is set. */
  function MarkAllRead(ns: seq<Notification>): (r: seq<Notification>)
    ensures |r| == |ns|
    ensures forall i :: 0 <= i < |ns| ==> r[i] == ns[i].(isRead := true)
  {
    if ns == [] then [] else [ns[0].(isRead := true)] + MarkAllRead(ns[1..])
  }

  /** After marking all read nothing is unread, which is the zero the store
      sets its count to. */
  lemma {:induction false} MarkAllReadLeavesNoneUnread(ns: seq<Notification>)
    ensures CountUnread(MarkAllRead(ns)) == 0
    ensures TabFilter(MarkAllRead(ns), "unread") == []
  {
    if ns != [] {
      MarkAllReadLeavesNoneUnread(ns[1..]);
      assert MarkAllRead(ns)[1..] == MarkAllRead(ns[1..]);
    }
  }

  /** A store whose count matched its list still matches after marking one
      notification read, provided it was present and unread: the only case in
      which the page offers the button. */
  lemma MarkReadKeepsCountExact(ns: seq<Notification>, id: NotificationId, count: nat)
    requires count == CountUnread(ns)
    requires FirstIndex(ns, id) < |ns| && !ns[FirstIndex(ns, id)].isRead
    ensures Decremented(count) == CountUnread(MarkRead(ns, id))
  {
    MarkReadCount(ns, id);
  }

  /** Marking an already read (or absent) notification still decrements the
      count, so the badge then under-reports the unread notifications. */
  lemma MarkReadTwiceUnderCounts(ns: seq<Notification>, id: NotificationId, count: nat)
    requires count == CountUnread(ns) && count > 0
    requires FirstIndex(ns, id) == |ns| || ns[FirstIndex(ns, id)].isRead
    ensures Decremented(count) < CountUnread(MarkRead(ns, id))
  {
    MarkReadCount(ns, id);
  }

  /** The unread count of a list is the sum of the counts of its parts. */
  lemma {:induction false} CountUnreadAppend(a: seq<Notification>, b: seq<Notification>)
    ensures CountUnread(a + b) == CountUnread(a) + CountUnread(b)
  {
    if a == [] {
      assert a + b == b;
    } else {
      assert (a + b)[1..] == a[1..] + b;
      CountUnreadAppend(a[1..], b);
    }
  }

  /** A list with an unread notification has a positive unread count. */
  lemma {:induction false} UnreadMeansPositiveCount(ns: seq<Notification>, i: nat)
    requires i < |ns| && !ns[i].isRead
    ensures CountUnread(ns) > 0
  {
    if i > 0 {
      UnreadMeansPositiveCount(ns[1..], i - 1);
    }
  }

  /** `loadNotifications` counts the newest `limit` (50) notifications, while
      the list page reloads them without a limit and keeps that count. The
      reloaded list never has fewer unread ones, and has more as soon as an
      unread notification lies beyond the limit: the kept count then
      under-reports. */
  lemma UnlimitedReloadOutnumbers(ns: seq<Notification>, limit: nat)
    requires limit <= |ns|
    ensures CountUnread(ns[..limit]) <= CountUnread(ns)
    ensures (exists i :: limit <= i < |ns| && !ns[i].isRead) ==> CountUnread(ns[..limit]) < CountUnread(ns)
  {
    assert ns == ns[..limit] + ns[limit..];
    CountUnreadAppend(ns[..limit], ns[limit..]);
    if i :| limit <= i < |ns| && !ns[i].isRead {
      UnreadMeansPositiveCount(ns[limit..], i - limit);
    }
  }
}
