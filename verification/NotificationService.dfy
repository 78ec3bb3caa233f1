/** Customer notifications, kept in memory: one per order and outcome. */
module NotificationService {
  import opened Contracts

  datatype NotificationType = DeliveryNotice | FailureNotice

  type NotificationEvent = event: Event | event.DeliveryBooked? || event.InventoryReservationFailed?
    witness DeliveryBooked(Random(0), 0, Random(0), Random(0), Random(0), 0)

  datatype Notification = Notification(
    notificationId: Id, orderId: Id, kind: NotificationType, event: NotificationEvent, createdAt: Time)

  function KindOf(event: NotificationEvent): NotificationType {
    if event.DeliveryBooked? then DeliveryNotice else FailureNotice
  }

  predicate Notified(notifications: seq<Notification>, orderId: Id, kind: NotificationType) {
    exists i :: 0 <= i < |notifications| && notifications[i].orderId == orderId && notifications[i].kind == kind
  }

  predicate OnePerOutcome(notifications: seq<Notification>) {
    forall i, j :: 0 <= i < j < |notifications| ==>
                     notifications[i].orderId != notifications[j].orderId || notifications[i].kind != notifications[j].kind
  }

  function Create(notifications: seq<Notification>, event: NotificationEvent, id: Id, now: Time): seq<Notification> {
    if Notified(notifications, event.orderId, KindOf(event)) then notifications
    else notifications + [Notification(id, event.orderId, KindOf(event), event, now)]
  }

  /** One more event: its outcome is notified, once, and every earlier notification stays. */
  lemma CreateKeeps(notifications: seq<Notification>, event: NotificationEvent, id: Id, now: Time)
    requires OnePerOutcome(notifications)
    ensures OnePerOutcome(Create(notifications, event, id, now))
    ensures Notified(Create(notifications, event, id, now), event.orderId, KindOf(event))
    ensures notifications <= Create(notifications, event, id, now)
  {
    var created := Create(notifications, event, id, now);
    if created != notifications {
      assert created[|notifications|].orderId == event.orderId && created[|notifications|].kind == KindOf(event);
    }
  }

  class NotificationStore {
    var notifications: seq<Notification>

    constructor ()
      ensures notifications == []
    {
      notifications := [];
    }

    /** The first notification of that order and type. */
    method FindNotification(orderId: Id, kind: NotificationType) returns (found: Option<Notification>)
      ensures found.Some? <==> Notified(notifications, orderId, kind)
      ensures found.Some? ==>
                found.value in notifications && found.value.orderId == orderId && found.value.kind == kind
    {
      for i := 0 to |notifications|
        invariant !Notified(notifications[..i], orderId, kind)
      {
        if notifications[i].orderId == orderId && notifications[i].kind == kind {
          return Some(notifications[i]);
        }
        assert notifications[..i + 1] == notifications[..i] + [notifications[i]];
      }
      assert notifications[..|notifications|] == notifications;
      found := None;
    }

    method CreateNotification(event: NotificationEvent, id: Id, now: Time) returns (notification: Notification)
      requires OnePerOutcome(notifications)
      modifies this
      ensures notifications == Create(old(notifications), event, id, now)
      ensures OnePerOutcome(notifications)
      ensures notification in notifications
      ensures notification.orderId == event.orderId && notification.kind == KindOf(event)
      ensures !Notified(old(notifications), event.orderId, KindOf(event)) ==>
                && notifications == old(notifications) + [notification] && notification.event == event
                && notification.notificationId == id && notification.createdAt == now
    {
      CreateKeeps(notifications, event, id, now);
      var existing := FindNotification(event.orderId, KindOf(event));
      if existing.Some? {
        return existing.value;
      }
      notification := Notification(id, event.orderId, KindOf(event), event, now);
      notifications := notifications + [notification];
      assert notifications[|notifications| - 1] == notification;
    }
  }
}
