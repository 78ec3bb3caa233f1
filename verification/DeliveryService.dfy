/** Delivery: a stateless service whose result event is a function of its source event. */
module DeliveryService {
  import opened Contracts
  import PaymentService

  const DELIVERY_TIME_IN_DAYS := 3
  const MILLISECONDS_PER_DAY := 86_400_000

  function BookDelivery(source: Event): (event: Event)
    requires source.InventoryReserved?
    ensures event.DeliveryBooked? && event.orderId == source.orderId
  {
    DeliveryBooked(
      Derived("delivery-service.delivery-booked-event", source.eventId),
      source.occurredAt,
      source.correlationId,
      source.orderId,
      Derived("delivery-service.delivery", source.orderId),
      source.occurredAt / MILLISECONDS_PER_DAY + DELIVERY_TIME_IN_DAYS)
  }

  /** The estimated day begins more than two and at most three days after the reservation. */
  lemma DeliveryTakesThreeDays(source: Event)
    requires source.InventoryReserved?
    ensures var start := BookDelivery(source).estimatedDeliveryDay * MILLISECONDS_PER_DAY;
            2 * MILLISECONDS_PER_DAY < start - source.occurredAt <= 3 * MILLISECONDS_PER_DAY
  {
  }

  /** Ids of the two services and generated ids never meet, and bookings are told apart by their source. */
  lemma DeliveryIdsIdentify(first: Event, second: Event, order: Event, serial: nat)
    requires first.InventoryReserved? && second.InventoryReserved? && order.OrderCreated?
    ensures BookDelivery(first).eventId == BookDelivery(second).eventId <==> first.eventId == second.eventId
    ensures BookDelivery(first).deliveryId == BookDelivery(second).deliveryId <==> first.orderId == second.orderId
    ensures BookDelivery(first).deliveryId != PaymentService.AuthorizePayment(order).paymentId
    ensures BookDelivery(first).eventId != PaymentService.AuthorizePayment(order).eventId
    ensures BookDelivery(first).eventId != Random(serial)
  {
    var delivery, payment := "delivery-service.delivery-booked-event", "payment-service.payment-authorized-event";
    assert delivery[0] != payment[0];
  }
}
