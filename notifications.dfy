/**
 * The notifications table: a user's notifications newest first, and the
 * mark-as-read and delete operations, both restricted to rows the requesting
 * user owns.
 */
module Notifications {
  import opened Wrappers
  import opened Seqs

  datatype Notification = Notification(
    id: nat,
    userId: UserId,
    kind: string,
    message: string,
    isRead: bool,
    createdAt: int)

  /** The `.eq('id', id).eq('user_id', u)` filter of both writes. */
  predicate Targets(n: Notification, id: nat, u: UserId)
  {
    n.id == id && n.userId == u
  }

  function OwnedBy(u: UserId): Notification -> bool
  {
    (n: Notification) => n.userId == u
  }

  function Kept(id: nat, u: UserId): Notification -> bool
  {
    (n: Notification) => !Targets(n, id, u)
  }

  /** `order('created_at', { ascending: false })`. */
  predicate CreatedNoEarlier(x: Notification, y: Notification)
  {
    x.createdAt >= y.createdAt
  }

  /** `getUserNotifications`. */
  function ForUser(rows: seq<Notification>, u: UserId): seq<Notification>
  {
    SortBy(Filter(rows, OwnedBy(u)), CreatedNoEarlier)
  }

  /** The table after `update({ is_read: true })` on the targeted rows. */
  function MarkRead(rows: seq<Notification>, id: nat, u: UserId): seq<Notification>
  {
    seq(|rows|, i requires 0 <= i < |rows| => if Targets(rows[i], id, u) then rows[i].(isRead := true) else rows[i])
  }

  /** The table after `delete()` of the targeted rows. */
  function Remove(rows: seq<Notification>, id: nat, u: UserId): seq<Notification>
  {
    Filter(rows, Kept(id, u))
  }

  /** The user's notifications: exactly their rows, each as often as stored, newest first. */
  lemma ForUserExact(rows: seq<Notification>, u: UserId)
    ensures var r := ForUser(rows, u);
      && (forall x :: multiset(r)[x] == if x.userId == u then multiset(rows)[x] else 0)
      && (forall i, j :: 0 <= i < j < |r| ==> r[i].createdAt >= r[j].createdAt)
  {
    var mine := Filter(rows, OwnedBy(u));
    forall x: Notification ensures multiset(mine)[x] == if x.userId == u then multiset(rows)[x] else 0 {
      FilterMultiset(rows, OwnedBy(u), x);
    }
    SortBySorted(mine, CreatedNoEarlier);
  }

  /**
   * Marking keeps every row in place and every field but `isRead`; a row is
   * read afterwards exactly when it was before or it has the id and belongs
   * to the user.
   */
  lemma MarkReadOnlyTargets(rows: seq<Notification>, id: nat, u: UserId)
    ensures var r := MarkRead(rows, id, u);
      && |r| == |rows|
      && (forall i :: 0 <= i < |rows| ==> r[i].(isRead := rows[i].isRead) == rows[i])
      && (forall i :: 0 <= i < |rows| ==> r[i].isRead == (rows[i].isRead || Targets(rows[i], id, u)))
  {
  }

  /** Marking the same notification twice leaves the table as marking it once. */
  lemma MarkReadIdempotent(rows: seq<Notification>, id: nat, u: UserId)
    ensures MarkRead(MarkRead(rows, id, u), id, u) == MarkRead(rows, id, u)
  {
  }

  /** Marking another user's notification, or a missing id, changes nothing. */
  lemma MarkReadNotOwnedUnchanged(rows: seq<Notification>, id: nat, u: UserId)
    requires forall i :: 0 <= i < |rows| ==> !Targets(rows[i], id, u)
    ensures MarkRead(rows, id, u) == rows
  {
  }

  /** Deleting removes exactly the rows with the id that belong to the user; every other row stays as often as stored. */
  lemma RemoveOnlyTargets(rows: seq<Notification>, id: nat, u: UserId)
    ensures forall x :: multiset(Remove(rows, id, u))[x] == if Targets(x, id, u) then 0 else multiset(rows)[x]
    ensures forall x :: x in rows && x.userId != u ==> x in Remove(rows, id, u)
  {
    forall x: Notification ensures multiset(Remove(rows, id, u))[x] == if Targets(x, id, u) then 0 else multiset(rows)[x] {
      FilterMultiset(rows, Kept(id, u), x);
    }
    FilterMembers(rows, Kept(id, u));
  }

  /** Deleting another user's notification, or a missing id, leaves the table exactly as it was. */
  lemma RemoveNotOwnedUnchanged(rows: seq<Notification>, id: nat, u: UserId)
    requires forall i :: 0 <= i < |rows| ==> !Targets(rows[i], id, u)
    ensures Remove(rows, id, u) == rows
  {
    FilterAll(rows, Kept(id, u));
  }

  class NotificationTable {
    var rows: seq<Notification>

    constructor (initial: seq<Notification>)
      ensures rows == initial
    {
      rows := initial;
    }

    /** `markNotificationAsRead`: the reply is the same whether or not a row matched. */
    method MarkNotificationAsRead(id: nat, u: UserId) returns (reply: string)
      modifies this
      ensures rows == MarkRead(old(rows), id, u)
      ensures reply == "Notification marked as read"
    {
      rows := MarkRead(rows, id, u);
      reply := "Notification marked as read";
    }

    /** `deleteNotification`: the reply is the same whether or not a row matched. */
    method DeleteNotification(id: nat, u: UserId) returns (reply: string)
      modifies this
      ensures rows == Remove(old(rows), id, u)
      ensures reply == "Notification deleted successfully"
    {
      rows := Remove(rows, id, u);
      reply := "Notification deleted successfully";
    }
  }
}
