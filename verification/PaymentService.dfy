/** Payment: a stateless service whose result event is a function of its source event. */
module PaymentService {
  import opened Contracts

  function AuthorizePayment(source: Event): (event: PaymentAuthorizedEvent)
    requires source.OrderCreated?
    ensures event.orderId == source.orderId && event.items == source.items
  {
    PaymentAuthorized(
      Derived("payment-service.payment-authorized-event", source.eventId),
      source.occurredAt,
      source.correlationId,
      source.orderId,
      Derived("payment-service.payment", source.orderId),
      source.totalAmount,
      source.items)
  }

  /** An event id never stands for two outcomes, and an order has one payment. */
  lemma PaymentIdsIdentify(first: Event, second: Event)
    requires first.OrderCreated? && second.OrderCreated?
    ensures AuthorizePayment(first).eventId == AuthorizePayment(second).eventId <==> first.eventId == second.eventId
    ensures AuthorizePayment(first).paymentId == AuthorizePayment(second).paymentId <==> first.orderId == second.orderId
  {
  }
}
