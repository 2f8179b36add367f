/** The notifications page (pages/ShowNotifications.jsx): per-type counts, the three tabs,
    marking everything read, per-item read/unread actions, and the texts each item shows. */
module ShowNotifications {
  import opened Base
  import Seqs

  /** A notification as the list endpoint returns it. */
  datatype Notification = Notification(id: int, kind: string, isRead: bool, postTitle: string)

  /** The `counts` state. */
  datatype Counts = Counts(comment: nat, like: nat, follow: nat, unread: nat)

  const InitialCounts := Counts(0, 0, 0, 0)

  predicate IsComment(n: Notification) { n.kind == "comment" }
  predicate IsLike(n: Notification) { n.kind == "like" }
  predicate IsFollow(n: Notification) { n.kind == "follow" }
  predicate IsUnread(n: Notification) { !n.isRead }
  /** What the General tab shows. */
  predicate IsGeneral(n: Notification) { n.kind == "comment" || n.kind == "like" }

  /** The counts computed when a list arrives. */
  function CountsOf(ns: seq<Notification>): (c: Counts)
    ensures c.comment + c.like + c.follow <= |ns| && c.unread <= |ns|
  {
    var c := Counts(|Seqs.Filter(ns, IsComment)|, |Seqs.Filter(ns, IsLike)|,
                    |Seqs.Filter(ns, IsFollow)|, |Seqs.Filter(ns, IsUnread)|);
    CommentLikeFollowDisjoint(ns);
    c
  }

  /** The three kinds never overlap, so their counts add up to at most the list length. */
  lemma {:induction false} CommentLikeFollowDisjoint(ns: seq<Notification>)
    ensures |Seqs.Filter(ns, IsComment)| + |Seqs.Filter(ns, IsLike)| + |Seqs.Filter(ns, IsFollow)| <= |ns|
  {
    if ns != [] {
      CommentLikeFollowDisjoint(ns[1..]);
    }
  }

  /** `getFilteredNotifications`: any tab other than General and Followers shows everything. */
  function TabItems(tab: string, ns: seq<Notification>): (r: seq<Notification>)
    ensures tab != "General" && tab != "Followers" ==> r == ns
  {
    if tab == "All" then ns
    else if tab == "General" then Seqs.Filter(ns, IsGeneral)
    else if tab == "Followers" then Seqs.Filter(ns, IsFollow)
    else ns
  }

  /** Which notifications a tab shows, and that it keeps their order. */
  lemma TabItemsExact(tab: string, ns: seq<Notification>, n: Notification)
    ensures tab == "General" ==> (n in TabItems(tab, ns) <==> n in ns && (n.kind == "comment" || n.kind == "like"))
    ensures tab == "Followers" ==> (n in TabItems(tab, ns) <==> n in ns && n.kind == "follow")
    ensures tab != "General" && tab != "Followers" ==> (n in TabItems(tab, ns) <==> n in ns)
  {
    Seqs.FilterMembership(ns, IsGeneral, n);
    Seqs.FilterMembership(ns, IsFollow, n);
  }

  lemma TabItemsKeepOrder(tab: string, a: seq<Notification>, b: seq<Notification>)
    ensures TabItems(tab, a + b) == TabItems(tab, a) + TabItems(tab, b)
  {
    Seqs.FilterAppend(a, b, IsGeneral);
    Seqs.FilterAppend(a, b, IsFollow);
  }

  /** The count next to a tab's name. */
  function TabCount(tab: string, ns: seq<Notification>, c: Counts): (r: int)
    ensures c == CountsOf(ns) ==> 0 <= r <= |ns|
  {
    if tab == "All" then |ns| else if tab == "General" then c.comment + c.like else c.follow
  }

  /** With counts computed from the list, each tab's badge is the number of items it shows. */
  lemma TabCountMatchesItems(tab: string, ns: seq<Notification>)
    requires tab == "All" || tab == "General" || tab == "Followers"
    ensures TabCount(tab, ns, CountsOf(ns)) == |TabItems(tab, ns)|
  {
    Seqs.FilterDisjointUnion(ns, IsComment, IsLike, IsGeneral);
  }

  /** Every notification marked read, nothing else changed. */
  function MarkedRead(ns: seq<Notification>): (r: seq<Notification>)
    ensures |r| == |ns|
    ensures forall i :: 0 <= i < |ns| ==> r[i] == ns[i].(isRead := true)
  {
    if ns == [] then [] else [ns[0].(isRead := true)] + MarkedRead(ns[1..])
  }

  /** Marking everything read leaves the per-type counts and clears the unread count. */
  lemma {:induction false} MarkedReadCounts(ns: seq<Notification>)
    ensures CountsOf(MarkedRead(ns)) == CountsOf(ns).(unread := 0)
  {
    if ns != [] {
      MarkedReadCounts(ns[1..]);
      assert MarkedRead(ns)[1..] == MarkedRead(ns[1..]);
    }
  }

  /** The per-item action: a read notification offers `mark_unread`, an unread one `mark_read`. */
  function ItemAction(n: Notification): (a: string)
    ensures a == "mark_unread" <==> n.isRead
    ensures a == "mark_read" <==> !n.isRead
  {
    if n.isRead then "mark_unread" else "mark_read"
  }

  /** `getNotificationText`. */
  function NotificationText(n: Notification): (t: string)
    ensures n.kind == "like" ==> t == "liked your post \"" + n.postTitle + "\""
    ensures n.kind == "comment" ==> t == "commented on your post \"" + n.postTitle + "\""
    ensures n.kind == "follow" ==> t == "started following you"
    ensures n.kind !in {"like", "comment", "follow"} ==> t == "sent you a notification"
  {
    match n.kind
    case "like" => "liked your post \"" + n.postTitle + "\""
    case "comment" => "commented on your post \"" + n.postTitle + "\""
    case "follow" => "started following you"
    case _ => "sent you a notification"
  }

  /** A relative time: "Just now", or minutes, hours or days ("Nm ago", "Nh ago", "Nd ago"). */
  datatype TimeAgo = JustNow | MinutesAgo(minutes: int) | HoursAgo(hours: int) | DaysAgo(days: int)

  /** `getTimeAgo` for a date `elapsedMs` milliseconds in the past. */
  function GetTimeAgo(elapsedMs: int): (r: TimeAgo)
    ensures var m := elapsedMs / 60000;
      && (m < 1 <==> r.JustNow?)
      && (r.MinutesAgo? ==> r.minutes == m && 1 <= m < 60)
      && (r.HoursAgo? ==> 1 <= r.hours < 24 && r.hours * 60 <= m < (r.hours + 1) * 60)
      && (r.DaysAgo? ==> r.days >= 1 && r.days * 1440 <= m < (r.days + 1) * 1440)
    ensures elapsedMs >= 60000 ==> (r.MinutesAgo? <==> elapsedMs < 3600000)
    ensures r.DaysAgo? <==> elapsedMs >= 86400000
  {
    var minutes := elapsedMs / 60000;
    if minutes < 1 then JustNow
    else if minutes < 60 then MinutesAgo(minutes)
    else
      var hours := minutes / 60;
      if hours < 24 then HoursAgo(hours)
      else DaysAgo(hours / 24)
  }

  /** What the list request gave back. */
  datatype ListReply = ListFailed | Listed(items: seq<Notification>)

  /** A per-item action request. */
  datatype ActionRequest = ActionRequest(notificationId: int, action: string)

  class Page {
    var activeTab: string
    var notifications: seq<Notification>
    var counts: Counts
    var loading: bool
    var actions: seq<ActionRequest>

    /** The counts always describe the list on screen. */
    predicate Valid()
      reads this
    {
      counts == CountsOf(notifications)
    }

    constructor ()
      ensures Valid() && activeTab == "All" && notifications == [] && loading && actions == []
    {
      activeTab := "All";
      notifications := [];
      counts := InitialCounts;
      loading := true;
      actions := [];
    }

    /** `fetchAllNotifications`: a list replaces the notifications and recomputes every count;
        a failure keeps both; loading ends either way. */
    method Fetch(reply: ListReply)
      requires Valid()
      modifies this
      ensures Valid() && !loading
      ensures reply.Listed? ==> notifications == reply.items
      ensures reply.ListFailed? ==> notifications == old(notifications) && counts == old(counts)
      ensures activeTab == old(activeTab) && actions == old(actions)
    {
      match reply {
        case Listed(items) =>
          notifications := items;
          counts := CountsOf(items);
        case ListFailed =>
      }
      loading := false;
    }

    /** `markAllAsRead`. */
    method MarkAllAsRead()
      requires Valid()
      modifies this
      ensures Valid()
      ensures notifications == MarkedRead(old(notifications))
      ensures counts == old(counts).(unread := 0)
      ensures activeTab == old(activeTab) && loading == old(loading) && actions == old(actions)
    {
      MarkedReadCounts(notifications);
      notifications := MarkedRead(notifications);
      counts := counts.(unread := 0);
    }

    /** `handleNotificationAction` for item `n`: posts the action; a success reloads the list. */
    method NotificationAction(n: Notification, posted: bool, refetch: ListReply)
      requires Valid()
      modifies this
      ensures Valid()
      ensures actions == old(actions) + [ActionRequest(n.id, ItemAction(n))]
      ensures !posted ==> notifications == old(notifications) && counts == old(counts) && loading == old(loading)
      ensures posted && refetch.Listed? ==> notifications == refetch.items
      ensures activeTab == old(activeTab)
    {
      actions := actions + [ActionRequest(n.id, ItemAction(n))];
      if posted {
        Fetch(refetch);
      }
    }

    /** The "Mark all read" button is offered while the unread count is positive. */
    function ShowMarkAll(): (r: bool)
      reads this
      requires Valid()
      ensures r <==> exists i :: 0 <= i < |notifications| && !notifications[i].isRead
    {
      UnreadCountPositive(notifications);
      counts.unread > 0
    }
  }

  /** The unread count is positive exactly when some notification is unread. */
  lemma {:induction false} UnreadCountPositive(ns: seq<Notification>)
    ensures CountsOf(ns).unread > 0 <==> exists i :: 0 <= i < |ns| && !ns[i].isRead
  {
    if ns != [] {
      UnreadCountPositive(ns[1..]);
      if !ns[0].isRead {
      } else if exists i :: 0 <= i < |ns| && !ns[i].isRead {
        var i :| 0 <= i < |ns| && !ns[i].isRead;
        assert ns[1..][i - 1] == ns[i];
      }
    }
  }
}
