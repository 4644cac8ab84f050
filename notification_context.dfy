/** The client's notification state (`NotificationContext`): the list of the signed-in
    user's notifications and the unread counter shown on the bell, kept up to date by
    fetching and by the two "mark as read" requests. */
module NotificationContext {
  import opened Common
  import opened Records

  function NoticeKey(n: Notification): Id { n.id }

  function Unread(n: Notification): bool { !n.read }

  /** The number of unread notifications, as a fetch recomputes it: none exactly when
      every notification is read. */
  function UnreadCount(ns: seq<Notification>): (r: nat)
    ensures r <= |ns|
    ensures r == 0 <==> forall i :: 0 <= i < |ns| ==> ns[i].read
  {
    var u := Filter(ns, Unread);
    assert |u| == 0 <==> forall i :: 0 <= i < |ns| ==> ns[i].read by {
      if |u| == 0 {
        forall i | 0 <= i < |ns| ensures ns[i].read {
          assert ns[i] in ns && ns[i] !in u;
        }
      } else {
        assert u[0] in ns;
      }
    }
    |u|
  }

  /** There is an unread notification with this id. */
  predicate HasUnread(ns: seq<Notification>, id: Id)
  {
    exists i :: 0 <= i < |ns| && ns[i].id == id && !ns[i].read
  }

  /** The local update after `markAsRead(id)` succeeds: the notifications with that id
      become read, every other one stays as it was, and the list keeps its ids in order. */
  function MarkRead(ns: seq<Notification>, id: Id): (r: seq<Notification>)
    ensures |r| == |ns| && Keys(r, NoticeKey) == Keys(ns, NoticeKey)
    ensures forall i :: 0 <= i < |ns| ==> r[i].id == id ==> r[i] == ns[i].(read := true)
    ensures forall i :: 0 <= i < |ns| ==> r[i].id != id ==> r[i] == ns[i]
  {
    seq(|ns|, i requires 0 <= i < |ns| => if ns[i].id == id then ns[i].(read := true) else ns[i])
  }

  /** The local update after `markAllAsRead` succeeds: every notification is read and
      nothing else changes. */
  function MarkAllRead(ns: seq<Notification>): (r: seq<Notification>)
    ensures |r| == |ns| && UnreadCount(r) == 0
    ensures forall i :: 0 <= i < |ns| ==> r[i] == ns[i].(read := true)
  {
    seq(|ns|, i requires 0 <= i < |ns| => ns[i].(read := true))
  }

  /** The counter update after a successful `markAsRead`, whatever was marked (line 62). */
  function Decremented(count: int): (r: int)
    ensures 0 <= r && (count > 0 ==> r == count - 1)
  {
    if count - 1 > 0 then count - 1 else 0
  }

  /** The unread count of a non-empty list: its head, then the rest. */
  lemma UnreadCountCons(ns: seq<Notification>)
    requires |ns| > 0
    ensures UnreadCount(ns) == (if ns[0].read then 0 else 1) + UnreadCount(ns[1..])
  {
  }

  /** With distinct ids, marking a notification as read lowers the number of unread
      notifications by one when it was unread, and leaves it as it was otherwise. */
  lemma {:induction false} UnreadAfterMarkRead(ns: seq<Notification>, id: Id)
    requires NoDuplicates(Keys(ns, NoticeKey))
    ensures UnreadCount(MarkRead(ns, id)) == UnreadCount(ns) - (if HasUnread(ns, id) then 1 else 0)
    decreases |ns|
  {
    if |ns| > 0 {
      var t := ns[1..];
      var m := MarkRead(ns, id);
      assert Keys(t, NoticeKey) == Keys(ns, NoticeKey)[1..];
      UnreadAfterMarkRead(t, id);
      assert m[1..] == MarkRead(t, id);
      UnreadCountCons(ns);
      UnreadCountCons(m);
      if ns[0].id == id {
        HeadIdUnique(ns, id);
      } else {
        HasUnreadTail(ns, id);
      }
    }
  }

  lemma HeadIdUnique(ns: seq<Notification>, id: Id)
    requires |ns| > 0 && ns[0].id == id
    requires NoDuplicates(Keys(ns, NoticeKey))
    ensures !HasUnread(ns[1..], id)
    ensures HasUnread(ns, id) <==> !ns[0].read
  {
    var t := ns[1..];
    forall j | 0 <= j < |t| ensures t[j].id != id {
      assert Keys(ns, NoticeKey)[0] != Keys(ns, NoticeKey)[j + 1];
    }
  }

  lemma HasUnreadTail(ns: seq<Notification>, id: Id)
    requires |ns| > 0 && ns[0].id != id
    ensures HasUnread(ns, id) <==> HasUnread(ns[1..], id)
  {
    var t := ns[1..];
    if HasUnread(ns, id) {
      var i :| 0 <= i < |ns| && ns[i].id == id && !ns[i].read;
      assert t[i - 1] == ns[i];
    }
    if HasUnread(t, id) {
      var i :| 0 <= i < |t| && t[i].id == id && !t[i].read;
      assert ns[i + 1] == t[i];
    }
  }

  /** The counter is lowered even when the notification clicked was already read, so after
      such a click the bell shows fewer unread notifications than the list holds. */
  lemma BadgeCanUndercount()
    ensures exists ns: seq<Notification>, id: Id ::
      NoDuplicates(Keys(ns, NoticeKey)) &&
      Decremented(UnreadCount(ns)) < UnreadCount(MarkRead(ns, id))
  {
    var unread := Notification(1, 7, NewMatchingJob, "New Job Match", "", false);
    var seen := Notification(2, 7, JobSelected, "Job Offer", "", true);
    var ns := [unread, seen];
    assert Keys(ns, NoticeKey) == [1, 2];
    assert ns[0].id == 1 && !ns[0].read;
    assert HasUnread(ns, 1);
    assert !HasUnread(ns, 2);
    UnreadAfterMarkRead(ns, 2);
    assert UnreadCount(ns) == 1 by {
      assert Filter(ns, Unread) == [unread] by {
        assert ns[1..] == [seen];
        assert ns[1..][1..] == [];
      }
    }
  }

  class NotificationCache {
    var currentUser: Option<User>
    var notifications: seq<Notification>
    var unreadCount: int

    /** The counter is never negative and, while ids are distinct, never exceeds the
        number of unread notifications in the list. */
    predicate Valid()
      reads this
    {
      0 <= unreadCount &&
      (NoDuplicates(Keys(notifications, NoticeKey)) ==> unreadCount <= UnreadCount(notifications))
    }

    constructor (user: Option<User>)
      ensures Valid()
      ensures currentUser == user && notifications == [] && unreadCount == 0
    {
      currentUser := user;
      notifications := [];
      unreadCount := 0;
    }

    /** The effect run when the signed-in user changes: with nobody signed in the list
        and the counter are cleared, otherwise the notifications are fetched. */
    method UserChanged(user: Option<User>, reply: Http<seq<Notification>>)
      requires Valid()
      modifies this
      ensures Valid() && currentUser == user
      ensures user.None? ==> notifications == [] && unreadCount == 0
      ensures user.Some? && reply.Reply? ==>
        notifications == reply.body && unreadCount == UnreadCount(reply.body)
      ensures user.Some? && reply.HttpError? ==>
        if old(notifications) == [] then notifications == [] && unreadCount == 0
        else notifications == old(notifications) && unreadCount == old(unreadCount)
    {
      currentUser := user;
      if user.None? {
        notifications := [];
        unreadCount := 0;
      } else {
        FetchNotifications(reply);
      }
    }

    /** `fetchNotifications`: a reply replaces the list and recounts the unread ones; a
        failure keeps what was there, except that an empty list resets the counter. */
    method FetchNotifications(reply: Http<seq<Notification>>)
      requires Valid()
      modifies this
      ensures Valid() && currentUser == old(currentUser)
      ensures old(currentUser).None? ==> notifications == old(notifications) && unreadCount == old(unreadCount)
      ensures old(currentUser).Some? && reply.Reply? ==>
        notifications == reply.body && unreadCount == UnreadCount(reply.body)
      ensures old(currentUser).Some? && reply.HttpError? ==>
        if old(notifications) == [] then notifications == [] && unreadCount == 0
        else notifications == old(notifications) && unreadCount == old(unreadCount)
    {
      if currentUser.None? {
        return;
      }
      match reply {
        case Reply(data) =>
          notifications := data;
          unreadCount := UnreadCount(data);
        case HttpError(_) =>
          if |notifications| == 0 {
            notifications := [];
            unreadCount := 0;
          }
      }
    }

    /** `markAsRead(id)`: once the server confirms, the notification is read locally and
        the counter goes down by one (never below zero); a failure changes nothing. */
    method MarkAsRead(id: Id, reply: Http<string>)
      requires Valid()
      modifies this
      ensures Valid() && currentUser == old(currentUser)
      ensures reply.Reply? ==> notifications == MarkRead(old(notifications), id) &&
                               unreadCount == Decremented(old(unreadCount))
      ensures reply.HttpError? ==> notifications == old(notifications) && unreadCount == old(unreadCount)
    {
      if reply.Reply? {
        var marked := MarkRead(notifications, id);
        if NoDuplicates(Keys(notifications, NoticeKey)) {
          UnreadAfterMarkRead(notifications, id);
        }
        notifications, unreadCount := marked, Decremented(unreadCount);
      }
    }

    /** `markAllAsRead`: once the server confirms, every notification is read and the
        counter, now exact, is zero; a failure changes nothing. */
    method MarkAllAsRead(reply: Http<string>)
      requires Valid()
      modifies this
      ensures Valid() && currentUser == old(currentUser)
      ensures reply.Reply? ==> notifications == MarkAllRead(old(notifications)) &&
                               unreadCount == UnreadCount(notifications) == 0
      ensures reply.HttpError? ==> notifications == old(notifications) && unreadCount == old(unreadCount)
    {
      if reply.Reply? {
        notifications := MarkAllRead(notifications);
        unreadCount := 0;
      }
    }
  }
}
