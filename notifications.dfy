/** Notifications: the status patch and "mark all read". */
module Notifications {
  import opened Python
  import opened Http
  import Permissions
  import StatusGuard

  /** A `Notification` row; the timestamps are not modelled. */
  datatype Notification = Notification(user: int, kind: string, message: string, status: string)

  const NotificationChoices: StatusGuard.Choices := [("sent", "Sent"), ("read", "Read")]
  const Sent := "sent"
  const Read := "read"

  predicate IsStatus(s: string)
  {
    s in StatusGuard.ChoiceValues(NotificationChoices)
  }

  /** The user's notifications still marked `sent`. */
  function UnreadOf(table: map<int, Notification>, userId: int): (ids: set<int>)
    ensures forall id :: id in ids <==> id in table && table[id].user == userId && table[id].status == Sent
  {
    set id | id in table && table[id].user == userId && table[id].status == Sent
  }

  /** The table after `update(status='read')` on the user's unread rows. */
  function MarkedRead(table: map<int, Notification>, userId: int): (t: map<int, Notification>)
    ensures t.Keys == table.Keys
  {
    map id | id in table :: if id in UnreadOf(table, userId) then table[id].(status := Read) else table[id]
  }

  class NotificationTable {
    var notifications: map<int, Notification>

    ghost predicate Valid()
      reads this
    {
      forall id :: id in notifications ==> IsStatus(notifications[id].status)
    }

    constructor(rows: map<int, Notification>)
      requires forall id :: id in rows ==> IsStatus(rows[id].status)
      ensures Valid() && notifications == rows
    {
      notifications := rows;
    }

    /** `NotificationStatusUpdateView.patch`. */
    method PatchStatus(caller: Option<Permissions.User>, id: int, data: map<string, Value>)
      returns (r: Outcome<Notification>)
      requires Valid()
      modifies this
      ensures Valid()
      ensures var d := StatusGuard.PatchDecision(caller, "Notification", id in old(notifications),
                                                  NotificationChoices, data);
        && (r.Ok? <==> d.Ok?)
        && (d.Err? ==> r == Err(d.error) && notifications == old(notifications))
        && (d.Ok? ==> notifications == old(notifications)[id := old(notifications)[id].(status := d.value)]
                      && r.value == notifications[id])
    {
      var d := StatusGuard.PatchDecision(caller, "Notification", id in notifications, NotificationChoices, data);
      if d.Err? {
        return Err(d.error);
      }
      notifications := notifications[id := notifications[id].(status := d.value)];
      r := Ok(notifications[id]);
    }

    /** `MarkAllUserNotificationsReadView.post`: every unread notification
        of the user becomes read in one bulk update, and the count of them
        is returned. With none unread nothing is written and the count is
        zero (the envelope then has a message and no data). */
    method MarkAllRead(caller: Option<Permissions.User>, userId: int) returns (r: Outcome<nat>)
      requires Valid()
      modifies this
      ensures Valid()
      ensures !Permissions.Authenticated(caller) ==>
        r.Err? && r.error.kind == NotAuthenticated && notifications == old(notifications)
      ensures Permissions.Authenticated(caller) ==>
        && r == Ok(|UnreadOf(old(notifications), userId)|)
        && notifications == MarkedRead(old(notifications), userId)
    {
      var auth := Permissions.CustomIsAuthenticated(caller);
      if auth.Deny? {
        return Err(Denied(auth));
      }
      var unread := UnreadOf(notifications, userId);
      if unread == {} {
        assert MarkedRead(notifications, userId) == notifications;
        return Ok(0);
      }
      var count := |unread|;
      notifications := MarkedRead(notifications, userId);
      r := Ok(count);
    }
  }

  /** Afterwards the user has no `sent` notification, the ones marked are
      exactly those counted, and every other row (other users', and the
      user's already-read ones) is unchanged. */
  lemma MarkedReadEffect(table: map<int, Notification>, userId: int)
    ensures UnreadOf(MarkedRead(table, userId), userId) == {}
    ensures forall id :: id in table && id !in UnreadOf(table, userId) ==> MarkedRead(table, userId)[id] == table[id]
    ensures forall id :: id in UnreadOf(table, userId) ==>
      MarkedRead(table, userId)[id] == table[id].(status := Read)
  {
    var t := MarkedRead(table, userId);
    assert forall id :: id !in UnreadOf(t, userId);
  }

  /** Marking is idempotent: a second call finds nothing to mark and
      changes nothing. */
  lemma MarkedReadIdempotent(table: map<int, Notification>, userId: int)
    ensures MarkedRead(MarkedRead(table, userId), userId) == MarkedRead(table, userId)
    ensures |UnreadOf(MarkedRead(table, userId), userId)| == 0
  {
    MarkedReadEffect(table, userId);
    var t := MarkedRead(table, userId);
    assert MarkedRead(t, userId) == t;
  }

  /** Another user's unread notifications are left for them. */
  lemma MarkedReadLeavesOthers(table: map<int, Notification>, userId: int, other: int)
    requires other != userId
    ensures UnreadOf(MarkedRead(table, userId), other) == UnreadOf(table, other)
  {
    var t := MarkedRead(table, userId);
    assert forall id :: id in UnreadOf(t, other) <==> id in UnreadOf(table, other);
  }
}
