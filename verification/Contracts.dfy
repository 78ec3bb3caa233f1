/** The event contracts every service shares: identifiers, event envelopes and routing. */
module Contracts {

  datatype Option<+T> = None | Some(value: T)

  /**
   * Identifiers. `Random` stands for a generated UUID, `Derived` for an id computed from
   * a namespace and another id. Derivation is injective and never meets a random id, which
   * is what the SHA-1 based derivation is trusted for.
   */
  datatype Id = Random(serial: nat) | Derived(namespace: string, key: Id)

  /** A product, named by its position in the database's product order. */
  type ProductId = nat

  /** Milliseconds since the epoch. */
  type Time = nat

  /** A sum of money; only ever copied. */
  type Amount = nat

  datatype OrderItem = OrderItem(productId: ProductId, quantity: int, unitPrice: Amount)

  datatype UnavailableItem =
    UnavailableItem(productId: ProductId, requestedQuantity: int, availableQuantity: int)

  datatype Event =
    | OrderCreated(eventId: Id, occurredAt: Time, correlationId: Id, orderId: Id,
                   customerId: Id, items: seq<OrderItem>, totalAmount: Amount)
    | PaymentAuthorized(eventId: Id, occurredAt: Time, correlationId: Id, orderId: Id,
                        paymentId: Id, amount: Amount, items: seq<OrderItem>)
    | InventoryReserved(eventId: Id, occurredAt: Time, correlationId: Id, orderId: Id,
                        reservationId: Id, items: seq<OrderItem>)
    | InventoryReservationFailed(eventId: Id, occurredAt: Time, correlationId: Id, orderId: Id,
                                 unavailableItems: seq<UnavailableItem>)
    | DeliveryBooked(eventId: Id, occurredAt: Time, correlationId: Id, orderId: Id,
                     deliveryId: Id, estimatedDeliveryDay: nat)

  type PaymentAuthorizedEvent = event: Event | event.PaymentAuthorized?
    witness PaymentAuthorized(Random(0), 0, Random(0), Random(0), Random(0), 0, [])

  /** The consumer queues of the topology. */
  datatype Queue = PaymentQueue | InventoryQueue | DeliveryQueue | NotificationQueue | TimelineQueue

  /** The queues whose bindings match the event's routing key. */
  function BoundQueues(event: Event): set<Queue> {
    match event
    case OrderCreated(_, _, _, _, _, _, _) => {PaymentQueue}
    case PaymentAuthorized(_, _, _, _, _, _, _) => {InventoryQueue, TimelineQueue}
    case InventoryReserved(_, _, _, _, _, _) => {DeliveryQueue, TimelineQueue}
    case InventoryReservationFailed(_, _, _, _, _) => {NotificationQueue, TimelineQueue}
    case DeliveryBooked(_, _, _, _, _, _) => {NotificationQueue, TimelineQueue}
  }
}
