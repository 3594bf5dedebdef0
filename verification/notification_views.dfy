/**
 * `marcar_notificacion_leida` (core/views.py): a notification is marked read only by its
 * recipient. A notification's key is its position in the table.
 */
module NotificationViews {
  import opened Wrappers
  import opened Models

  datatype ReadError = NotificationNotFound | NotRecipient

  /**
   * Missing key: not found. Someone else's notification: refused, nothing changes.
   * Otherwise that notification is read and every other row is as it was.
   */
  function MarkRead(notifs: seq<Notification>, key: nat, viewer: Profile): (r: Result<seq<Notification>, ReadError>)
    ensures key >= |notifs| ==> r == Failure(NotificationNotFound)
    ensures key < |notifs| && notifs[key].recipient != Some(viewer.id) ==> r == Failure(NotRecipient)
    ensures r.Success? <==> key < |notifs| && notifs[key].recipient == Some(viewer.id)
    ensures r.Success? ==> |r.value| == |notifs| && r.value[key].read &&
                           r.value[key] == notifs[key].(read := true) &&
                           forall k :: 0 <= k < |notifs| && k != key ==> r.value[k] == notifs[k]
  {
    if key >= |notifs| then Failure(NotificationNotFound)
    else if notifs[key].recipient != Some(viewer.id) then Failure(NotRecipient)
    else Success(notifs[key := notifs[key].(read := true)])
  }

  /** An unread notification addressed to the profile. */
  predicate UnreadBy(n: Notification, profileId: nat) {
    n.recipient == Some(profileId) && !n.read
  }

  /** How many unread notifications are addressed to a profile: the badge counter of every page. */
  function UnreadFor(notifs: seq<Notification>, profileId: nat): (c: nat)
    ensures c <= |notifs|
    ensures c == 0 <==> forall i :: 0 <= i < |notifs| ==> !UnreadBy(notifs[i], profileId)
    decreases |notifs|
  {
    if notifs == [] then 0
    else
      var rest := UnreadFor(notifs[1..], profileId);
      assert (forall i :: 0 <= i < |notifs| ==> !UnreadBy(notifs[i], profileId)) <==>
             !UnreadBy(notifs[0], profileId) && forall i :: 0 <= i < |notifs[1..]| ==> !UnreadBy(notifs[1..][i], profileId) by {
        assert forall i :: 1 <= i < |notifs| ==> notifs[i] == notifs[1..][i - 1];
      }
      (if UnreadBy(notifs[0], profileId) then 1 else 0) + rest
  }

  /** Marking an already read notification again leaves the table as it is. */
  lemma MarkReadIdempotent(notifs: seq<Notification>, key: nat, viewer: Profile)
    requires MarkRead(notifs, key, viewer).Success?
    ensures MarkRead(MarkRead(notifs, key, viewer).value, key, viewer) == MarkRead(notifs, key, viewer)
  {
    var after := MarkRead(notifs, key, viewer).value;
    assert after[key := after[key].(read := true)] == after;
  }

  /**
   * Marking read lowers the recipient's unread count by one exactly when the notification
   * was unread, and leaves every other profile's count alone.
   */
  lemma {:induction false} MarkReadCounts(notifs: seq<Notification>, key: nat, viewer: Profile, other: nat)
    requires MarkRead(notifs, key, viewer).Success?
    ensures var after := MarkRead(notifs, key, viewer).value;
            UnreadFor(after, viewer.id) == UnreadFor(notifs, viewer.id) - (if notifs[key].read then 0 else 1) &&
            (other != viewer.id ==> UnreadFor(after, other) == UnreadFor(notifs, other))
    decreases |notifs|
  {
    var after := MarkRead(notifs, key, viewer).value;
    if key == 0 {
      assert after[1..] == notifs[1..];
    } else {
      var rest := notifs[1..];
      assert rest[key - 1] == notifs[key];
      MarkReadCounts(rest, key - 1, viewer, other);
      assert after[1..] == MarkRead(rest, key - 1, viewer).value;
      assert after[0] == notifs[0];
    }
  }
}
