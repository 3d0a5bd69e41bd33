/** The payment gateway's message shapes, as the two payment functions
    exchange them. Amounts on the gateway side are integer paise. */
module Gateway {
  import opened Common

  /** payload.payment.entity of a webhook delivery. */
  datatype PaymentEntity = PaymentEntity(orderId: Id, id: Id, amount: int, status: string)

  /** A parsed webhook body: its `event` name and its payment entity. */
  datatype WebhookEvent = WebhookEvent(event: string, payment: PaymentEntity)

  /** The order creation request (amount, currency, receipt and notes). */
  datatype OrderPayload = OrderPayload(amount: int, currency: string, receipt: Id, description: string, userId: Id)

  /** The gateway's answer to an order creation request. */
  datatype OrderReply =
    | OrderCreated(orderId: Id, amount: int, currency: string)
    | OrderRejected(reason: string)
}
