/** The notification bell (src/components/shared/Notifications.jsx): the
    latest notifications of the signed-in user, the unread counter, the
    realtime feed and the two ways of marking notifications as read. */
module NotificationsPanel {
  import opened Common
  import opened Store

  /** `.limit(20)` on the fetch. */
  const PAGE_SIZE := 20

  predicate Unread(n: Notification) { !n.isRead }

  function CreatedAt(n: Notification): int { n.createdAt }

  /** The fetch: the user's notifications, newest first, at most 20. */
  function Latest(rows: seq<Notification>, user: Id): seq<Notification>
  {
    Take(SortDesc(Filter(rows, (n: Notification) => n.userId == user), CreatedAt), PAGE_SIZE)
  }

  function UnreadCount(ns: seq<Notification>): nat { Count(ns, Unread) }

  /** `update({ is_read: true }).eq('id', id)`, and the matching `map` on the
      list. */
  function MarkRead(ns: seq<Notification>, id: Id): (r: seq<Notification>)
    ensures |r| == |ns|
  {
    seq(|ns|, i requires 0 <= i < |ns| => if ns[i].id == id then ns[i].(isRead := true) else ns[i])
  }

  /** The list after `markAllAsRead`: every entry read. */
  function MarkAllRead(ns: seq<Notification>): (r: seq<Notification>)
    ensures |r| == |ns|
  {
    seq(|ns|, i requires 0 <= i < |ns| => ns[i].(isRead := true))
  }

  /** The table after `markAllAsRead`: every unread row of the user read. */
  function MarkUserRead(ns: seq<Notification>, user: Id): (r: seq<Notification>)
    ensures |r| == |ns|
  {
    seq(|ns|, i requires 0 <= i < |ns| =>
      if ns[i].userId == user && !ns[i].isRead then ns[i].(isRead := true) else ns[i])
  }

  /** Notification ids are the table's primary key. */
  predicate UniqueIds(ns: seq<Notification>)
  {
    forall i, j :: 0 <= i < |ns| && 0 <= j < |ns| && ns[i].id == ns[j].id ==> i == j
  }

  class Panel {
    const db: Database
    const user: Id
    var notifications: seq<Notification>
    var unreadCount: nat
    var loading: bool

    /** The counter agrees with the list, and the list shows each
        notification once. */
    ghost predicate Valid()
      reads this
    {
      unreadCount == UnreadCount(notifications) && UniqueIds(notifications)
    }

    constructor (db: Database, user: Id)
      ensures this.db == db && this.user == user
      ensures notifications == [] && unreadCount == 0 && loading
      ensures Valid()
    {
      this.db, this.user := db, user;
      notifications, unreadCount, loading := [], 0, true;
    }

    /** `fetchNotifications`. A failed query keeps the list and the counter.
        A successful one makes the counter right whatever came before. */
    method Fetch(fails: bool)
      requires UniqueIds(db.notifications)
      modifies this`notifications, this`unreadCount, this`loading
      ensures !fails ==> notifications == Latest(db.notifications, user)
      ensures !fails ==> unreadCount == UnreadCount(notifications)
      ensures fails ==> notifications == old(notifications) && unreadCount == old(unreadCount)
      ensures !loading
      ensures !fails || old(Valid()) ==> Valid()
    {
      if !fails {
        var rows := Latest(db.notifications, user);
        LatestUnique(db.notifications, user);
        notifications, unreadCount := rows, UnreadCount(rows);
      }
      loading := false;
    }

    /** The realtime insert callback: the new row goes first and the counter
        goes up by one, whatever the row holds. The counter stays right when
        the row is unread and has a fresh id, as every inserted notification
        does. */
    method Incoming(n: Notification)
      modifies this`notifications, this`unreadCount
      ensures notifications == [n] + old(notifications)
      ensures unreadCount == old(unreadCount) + 1
      ensures old(Valid()) && Unread(n) && (forall m :: m in old(notifications) ==> m.id != n.id) ==> Valid()
    {
      if Valid() && Unread(n) && forall m :: m in notifications ==> m.id != n.id {
        PrependUnique(n, notifications);
      }
      notifications, unreadCount := [n] + notifications, unreadCount + 1;
    }

    /** `markAsRead`. A failed update changes nothing; otherwise the row and
        the entry are marked read and the counter goes down, never below 0. */
    method MarkAsRead(id: Id, fails: bool)
      modifies db`notifications, this`notifications, this`unreadCount
      ensures fails ==> unchanged(db) && unchanged(this)
      ensures !fails ==> db.notifications == MarkRead(old(db.notifications), id)
      ensures !fails ==> notifications == MarkRead(old(notifications), id)
      ensures !fails ==> unreadCount == if old(unreadCount) == 0 then 0 else old(unreadCount) - 1
    {
      if !fails {
        db.notifications := MarkRead(db.notifications, id);
        notifications := MarkRead(notifications, id);
        unreadCount := if unreadCount == 0 then 0 else unreadCount - 1;
      }
    }

    /** A click on an entry marks it read only when it is unread, so the
        counter stays right. */
    method Click(i: nat, fails: bool)
      requires Valid() && i < |notifications|
      modifies db`notifications, this`notifications, this`unreadCount
      ensures Valid()
      ensures old(notifications[i]).isRead || fails ==> unchanged(db) && unchanged(this)
      ensures !old(notifications[i]).isRead && !fails ==>
        notifications == MarkRead(old(notifications), old(notifications[i]).id)
      ensures !old(notifications[i]).isRead && !fails ==>
        db.notifications == MarkRead(old(db.notifications), old(notifications[i]).id)
    {
      var n := notifications[i];
      if !n.isRead {
        MarkReadCount(notifications, i);
        MarkReadKeepsIds(notifications, n.id);
        MarkAsRead(n.id, fails);
      }
    }

    /** `markAllAsRead`. */
    method MarkAllAsRead(fails: bool)
      requires Valid()
      modifies db`notifications, this`notifications, this`unreadCount
      ensures fails ==> unchanged(db) && unchanged(this)
      ensures !fails ==> db.notifications == MarkUserRead(old(db.notifications), user)
      ensures !fails ==> notifications == MarkAllRead(old(notifications)) && unreadCount == 0
      ensures Valid()
    {
      if !fails {
        MarkAllReadCount(notifications);
        assert UniqueIds(MarkAllRead(notifications)) by {
          var r := MarkAllRead(notifications);
          assert forall k :: 0 <= k < |r| ==> r[k].id == notifications[k].id;
        }
        db.notifications := MarkUserRead(db.notifications, user);
        notifications, unreadCount := MarkAllRead(notifications), 0;
      }
    }
  }

  // ---------------------------------------------------------------------------
  // The fetch

  /** At most 20 of the user's own notifications, newest first, no newer one
      of the user's left out, and all of them when the user has fewer. */
  lemma LatestSpec(rows: seq<Notification>, user: Id)
    ensures |Latest(rows, user)| <= PAGE_SIZE
    ensures SortedDesc(Latest(rows, user), CreatedAt)
    ensures forall n :: n in Latest(rows, user) ==> n in rows && n.userId == user
    ensures forall n, m :: n in rows && n.userId == user && n !in Latest(rows, user) && m in Latest(rows, user) ==>
      CreatedAt(m) >= CreatedAt(n)
    ensures |Latest(rows, user)| < PAGE_SIZE ==> forall n :: n in rows && n.userId == user ==> n in Latest(rows, user)
  {
    NewestFirstSpec(rows, (n: Notification) => n.userId == user, CreatedAt, PAGE_SIZE);
  }

  lemma {:induction false} UniqueAtMostOnce(ns: seq<Notification>, x: Notification)
    requires UniqueIds(ns)
    ensures multiset(ns)[x] <= 1
  {
    if ns != [] {
      var t := ns[1..];
      assert UniqueIds(t) by {
        forall i, j | 0 <= i < |t| && 0 <= j < |t| && t[i].id == t[j].id ensures i == j {
          assert ns[i + 1].id == ns[j + 1].id;
        }
      }
      UniqueAtMostOnce(t, x);
      assert ns == [ns[0]] + t;
      if ns[0] == x {
        forall k | 0 <= k < |t| ensures t[k] != x {
          assert ns[k + 1] == t[k];
        }
      }
    }
  }

  lemma TwoPositions(r: seq<Notification>, i: nat, j: nat)
    requires i < j < |r| && r[i] == r[j]
    ensures multiset(r)[r[i]] >= 2
  {
    assert r == r[..j] + [r[j]] + r[j + 1..];
    assert r[..j][i] == r[i];
  }

  /** A query result that holds no row more often than the table, from a
      table with unique ids, has unique ids. */
  lemma UniqueOfSubMultiset(r: seq<Notification>, ns: seq<Notification>)
    requires multiset(r) <= multiset(ns) && UniqueIds(ns)
    ensures UniqueIds(r)
  {
    forall i, j | 0 <= i < |r| && 0 <= j < |r| && r[i].id == r[j].id && i < j
      ensures false
    {
      assert r[i] in multiset(ns) && r[j] in multiset(ns);
      var a :| 0 <= a < |ns| && ns[a] == r[i];
      var b :| 0 <= b < |ns| && ns[b] == r[j];
      TwoPositions(r, i, j);
      UniqueAtMostOnce(ns, r[i]);
    }
  }

  lemma LatestUnique(rows: seq<Notification>, user: Id)
    requires UniqueIds(rows)
    ensures UniqueIds(Latest(rows, user))
  {
    NewestFirstSubMultiset(rows, (n: Notification) => n.userId == user, CreatedAt, PAGE_SIZE);
    UniqueOfSubMultiset(Latest(rows, user), rows);
  }

  // ---------------------------------------------------------------------------
  // The counter

  lemma PrependUnique(n: Notification, ns: seq<Notification>)
    requires UniqueIds(ns) && forall m :: m in ns ==> m.id != n.id
    ensures UniqueIds([n] + ns)
    ensures Unread(n) ==> UnreadCount([n] + ns) == UnreadCount(ns) + 1
  {
    var r := [n] + ns;
    assert r[1..] == ns;
    forall i, j | 0 <= i < |r| && 0 <= j < |r| && r[i].id == r[j].id ensures i == j {
      if i > 0 && j > 0 {
        assert ns[i - 1].id == ns[j - 1].id;
      }
    }
  }

  /** Marking read an id that no entry carries changes nothing. */
  lemma {:induction false} MarkReadAbsent(ns: seq<Notification>, id: Id)
    requires forall k :: 0 <= k < |ns| ==> ns[k].id != id
    ensures MarkRead(ns, id) == ns
  {
  }

  /** Marking the unread entry `i` read lowers the unread count by exactly
      one when ids are unique. */
  lemma {:induction false} MarkReadCount(ns: seq<Notification>, i: nat)
    requires UniqueIds(ns) && i < |ns| && Unread(ns[i])
    ensures UnreadCount(MarkRead(ns, ns[i].id)) == UnreadCount(ns) - 1
  {
    var id := ns[i].id;
    var r := MarkRead(ns, id);
    var before, after := ns[..i], ns[i + 1..];
    assert ns == before + [ns[i]] + after;
    forall k | 0 <= k < |before| ensures before[k].id != id { assert before[k] == ns[k]; }
    forall k | 0 <= k < |after| ensures after[k].id != id { assert after[k] == ns[i + 1 + k]; }
    MarkReadAbsent(before, id);
    MarkReadAbsent(after, id);
    assert r == MarkRead(before, id) + [ns[i].(isRead := true)] + MarkRead(after, id);
    CountAppend(before + [ns[i]], after, Unread);
    CountAppend(before, [ns[i]], Unread);
    CountAppend(before + [ns[i].(isRead := true)], after, Unread);
    CountAppend(before, [ns[i].(isRead := true)], Unread);
  }

  lemma MarkReadKeepsIds(ns: seq<Notification>, id: Id)
    requires UniqueIds(ns)
    ensures UniqueIds(MarkRead(ns, id))
  {
    var r := MarkRead(ns, id);
    assert forall k :: 0 <= k < |r| ==> r[k].id == ns[k].id;
  }

  /** After marking all, nothing is unread. */
  lemma {:induction false} MarkAllReadCount(ns: seq<Notification>)
    ensures UnreadCount(MarkAllRead(ns)) == 0
  {
    if ns != [] {
      MarkAllReadCount(ns[1..]);
      assert MarkAllRead(ns)[1..] == MarkAllRead(ns[1..]);
    }
  }

  /** On a list of the user's own notifications, the table update and the
      list update agree. */
  lemma UserReadIsAllRead(ns: seq<Notification>, user: Id)
    requires forall n :: n in ns ==> n.userId == user
    ensures MarkUserRead(ns, user) == MarkAllRead(ns)
  {
    assert forall k :: 0 <= k < |ns| ==> ns[k] in ns;
  }

  /** The table update touches only the user's rows. */
  lemma UserReadLeavesOthers(ns: seq<Notification>, user: Id, k: nat)
    requires k < |ns| && ns[k].userId != user
    ensures MarkUserRead(ns, user)[k] == ns[k]
  {
  }
}
