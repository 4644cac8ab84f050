/** The navigation bar's notification menu (`Navbar`): the bell with its unread badge,
    opening the menu, and following a notification to the page it is about. */
module Navbar {
  import opened Common
  import opened Records
  import Text
  import ServerRules
  import opened NotificationContext

  /** The bell carries a badge while the counter is positive. */
  predicate BadgeShown(unreadCount: int)
  {
    unreadCount > 0
  }

  /** The text the menu takes for a job id from a new-application message: the second
      `:`-separated piece, trimmed, or `"undefined"` (what a template literal prints for a
      missing piece) when the message has no colon. */
  function JobRefOf(message: string): (r: string)
    ensures ':' !in r
    ensures r != "undefined" ==> Text.Trimmed(r)
  {
    var pieces := Text.Split(message, ':');
    if |pieces| < 2 then "undefined" else Text.Trim(pieces[1])
  }

  /** Where clicking a notification leads: the applications of a job for a new application,
      the seeker dashboard for a selection or a new match, and nowhere for feedback or any
      other kind. */
  function RouteFor(n: Notification): (r: Option<string>)
    ensures r.Some? <==> n.kind in {NewApplication, JobSelected, NewMatchingJob}
    ensures n.kind == NewApplication ==> r == Some("/provider/applications/" + JobRefOf(n.message))
    ensures n.kind in {JobSelected, NewMatchingJob} ==> r == Some("/seeker")
  {
    if n.kind == NewApplication then Some("/provider/applications/" + JobRefOf(n.message))
    else if n.kind == JobSelected then Some("/seeker")
    else if n.kind == NewMatchingJob then Some("/seeker")
    else None
  }

  lemma TrimAfterSpace(x: string)
    ensures Text.Trim(" " + x) == Text.Trim(x)
  {
    assert (" " + x)[1..] == x;
  }

  /** A new-application notice sent by the server names the job by its title, so the menu
      routes to the title (trimmed) and not to the job's id, whenever the seeker's name and
      the title contain no colon. */
  lemma {:induction false} ApplicationRouteUsesTitle(id: Id, job: Job, seeker: User)
    requires ':' !in seeker.name && ':' !in job.title
    ensures RouteFor(ServerRules.ApplicationNotice(id, job, seeker)) ==
            Some("/provider/applications/" + Text.Trim(job.title))
  {
    var head := seeker.name + " has applied for your job";
    var tail := " " + job.title;
    assert ':' !in tail;
    var message := ServerRules.ApplicationNotice(id, job, seeker).message;
    assert message == Text.Join([head, tail], ":") by {
      assert [head, tail][1..] == [tail];
    }
    Text.JoinThenSplit([head, tail], ':');
    assert Text.Split(message, ':') == [head, tail];
    assert |[head, tail]| == 2 && [head, tail][1] == tail;
    TrimAfterSpace(job.title);
  }

  /** A colon in the seeker's name moves the piece the menu reads: for a seeker named
      `a + ":" + b` the route names `b + " has applied for your job"`, trimmed. */
  lemma {:induction false} ColonInNameMisroutes(id: Id, job: Job, seeker: User, a: string, b: string)
    requires seeker.name == a + ":" + b
    requires ':' !in a && ':' !in b && ':' !in job.title
    ensures RouteFor(ServerRules.ApplicationNotice(id, job, seeker)) ==
            Some("/provider/applications/" + Text.Trim(b + " has applied for your job"))
  {
    var middle := b + " has applied for your job";
    var tail := " " + job.title;
    assert ':' !in middle && ':' !in tail;
    var parts := [a, middle, tail];
    var message := ServerRules.ApplicationNotice(id, job, seeker).message;
    assert message == Text.Join(parts, ":") by {
      assert parts[1..] == [middle, tail];
      assert [middle, tail][1..] == [tail];
      assert Text.Join([middle, tail], ":") == middle + ":" + tail;
      assert message == a + ":" + (middle + ":" + tail);
    }
    Text.JoinThenSplit(parts, ':');
    assert Text.Split(message, ':')[1] == middle;
  }

  class NavbarState {
    var showNotifications: bool

    constructor ()
      ensures !showNotifications
    {
      showNotifications := false;
    }

    /** `toggleNotifications`: flips the menu; opening it while the badge is shown marks
        every notification as read, after which the badge is gone. */
    method ToggleNotifications(cache: NotificationCache, reply: Http<string>)
      requires cache.Valid()
      modifies this, cache
      ensures cache.Valid() && showNotifications == !old(showNotifications)
      ensures !old(showNotifications) && old(BadgeShown(cache.unreadCount)) ==>
        if reply.Reply? then cache.notifications == MarkAllRead(old(cache.notifications)) &&
                             !BadgeShown(cache.unreadCount)
        else cache.notifications == old(cache.notifications) && cache.unreadCount == old(cache.unreadCount)
      ensures old(showNotifications) || !old(BadgeShown(cache.unreadCount)) ==>
        cache.notifications == old(cache.notifications) && cache.unreadCount == old(cache.unreadCount)
      ensures cache.currentUser == old(cache.currentUser)
    {
      var wasShown := showNotifications;
      showNotifications := !wasShown;
      if !wasShown && cache.unreadCount > 0 {
        cache.MarkAllAsRead(reply);
      }
    }

    /** `handleNotificationClick`: marks the notification as read, closes the menu and
        returns the route to follow, if any. */
    method HandleNotificationClick(n: Notification, cache: NotificationCache, reply: Http<string>)
      returns (route: Option<string>)
      requires cache.Valid()
      modifies this, cache
      ensures cache.Valid() && !showNotifications
      ensures route == RouteFor(n)
      ensures reply.Reply? ==> cache.notifications == MarkRead(old(cache.notifications), n.id) &&
                               cache.unreadCount == Decremented(old(cache.unreadCount))
      ensures reply.HttpError? ==> cache.notifications == old(cache.notifications) &&
                                   cache.unreadCount == old(cache.unreadCount)
      ensures cache.currentUser == old(cache.currentUser)
    {
      cache.MarkAsRead(n.id, reply);
      route := RouteFor(n);
      showNotifications := false;
    }
  }
}
