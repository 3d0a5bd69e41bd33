/** The payment edge function (supabase/functions/razorpay-payment/index.ts):
    it validates the request, opens an order with the payment gateway and
    records a payment intent that the webhook later completes.

    Amounts are paise throughout the model, so the rupee-to-paise
    conversion of the order payload is the identity on model amounts. The
    gateway is a function parameter from the payload it is sent to its
    reply; randomUUID is the store's id counter. */
module RazorpayPayment {
  import opened Common
  import opened Supabase
  import opened Gateway

  const NotConfigured := "Razorpay credentials not configured"
  const InvalidAmount := "Invalid amount"
  const UserRequired := "User ID is required"
  const ApiErrorPrefix := "Razorpay API error: "

  /** The JSON body: `amount` is None when it is missing or not a number,
      `userId` None when it is missing or empty. */
  datatype PaymentBody = PaymentBody(amount: Option<Paise>, description: string, userId: Option<Id>)

  /** The 200 answer with the order details, or the 500 answer with the
      message of what was thrown. */
  datatype PaymentReply =
    | OrderOpened(orderId: Id, amount: int, currency: string, transactionId: Id)
    | PaymentFailed(message: string)

  function StatusCode(r: PaymentReply): nat {
    if r.OrderOpened? then 200 else 500
  }

  /** The order payload for a validated request. */
  function OrderFor(amount: Paise, description: string, userId: Id, transactionId: Id): (o: OrderPayload)
    ensures o.amount == amount && o.currency == "INR" && o.receipt == transactionId && o.userId == userId
    ensures o.description == OrDefault(description, "Wallet deposit")
  {
    OrderPayload(amount, "INR", transactionId, OrDefault(description, "Wallet deposit"), userId)
  }

  /** The intent row recorded once the gateway has opened the order. */
  function IntentFor(transactionId: Id, amount: Paise, description: string, userId: Id, orderId: Id, now: Timestamp): IntentRow {
    IntentRow(transactionId, userId, amount, OrDefault(description, "Wallet deposit"), "CREATED", "RAZORPAY", orderId, None, now, None)
  }

  /** The handler: credentials, then amount, then user are checked; the
      order is opened; the intent is inserted without looking at the result
      of the insert. */
  function CreateOrder(s: Store, configured: bool, body: PaymentBody, gateway: OrderPayload -> OrderReply, now: Timestamp, failing: set<Step>): Served<PaymentReply> {
    if !configured then Served(PaymentFailed(NotConfigured), s)
    else if body.amount.None? || body.amount.value <= 0 then Served(PaymentFailed(InvalidAmount), s)
    else if body.userId.None? then Served(PaymentFailed(UserRequired), s)
    else
      var transactionId := s.nextId;
      var generated := s.(nextId := s.nextId + 1);
      var reply := gateway(OrderFor(body.amount.value, body.description, body.userId.value, transactionId));
      match reply
      case OrderRejected(reason) => Served(PaymentFailed(ApiErrorPrefix + reason), generated)
      case OrderCreated(orderId, amount, currency) =>
        var intent := IntentFor(transactionId, body.amount.value, body.description, body.userId.value, orderId, now);
        var after := if IntentInsert in failing then generated
          else generated.(paymentIntents := s.paymentIntents + [intent]);
        Served(OrderOpened(orderId, amount, currency, transactionId), after)
  }

  method HandlePayment(db: Db, configured: bool, body: PaymentBody, gateway: OrderPayload -> OrderReply, now: Timestamp, failing: set<Step>)
    returns (reply: PaymentReply)
    requires db.Valid()
    modifies db
    ensures db.Valid()
    ensures var e := CreateOrder(old(db.Snapshot()), configured, body, gateway, now, failing);
      reply == e.reply && db.Snapshot() == e.after
  {
    CreateOrderKeepsWellFormed(db.Snapshot(), configured, body, gateway, now, failing);
    if !configured {
      return PaymentFailed(NotConfigured);
    }
    if body.amount.None? || body.amount.value <= 0 {
      return PaymentFailed(InvalidAmount);
    }
    if body.userId.None? {
      return PaymentFailed(UserRequired);
    }
    var transactionId := db.FreshId();
    var answer := gateway(OrderFor(body.amount.value, body.description, body.userId.value, transactionId));
    if answer.OrderRejected? {
      return PaymentFailed(ApiErrorPrefix + answer.reason);
    }
    if IntentInsert !in failing {
      db.paymentIntents := db.paymentIntents + [IntentFor(transactionId, body.amount.value, body.description, body.userId.value, answer.orderId, now)];
    }
    reply := OrderOpened(answer.orderId, answer.amount, answer.currency, transactionId);
  }

  lemma CreateOrderKeepsWellFormed(s: Store, configured: bool, body: PaymentBody, gateway: OrderPayload -> OrderReply, now: Timestamp, failing: set<Step>)
    requires WellFormed(s)
    ensures WellFormed(CreateOrder(s, configured, body, gateway, now, failing).after)
  {
  }

  /** A request is rejected, with nothing written, in the order the checks
      are made: missing credentials, then an amount that is missing or not
      above zero, then a missing user. A valid request sends the gateway an
      order for exactly the requested amount in INR, receipted with a fresh
      transaction id; a rejection is reported with the gateway's reason. */
  lemma CreateOrderOutcome(s: Store, configured: bool, body: PaymentBody, gateway: OrderPayload -> OrderReply, now: Timestamp, failing: set<Step>)
    ensures var e := CreateOrder(s, configured, body, gateway, now, failing);
      && (!configured ==> e == Served(PaymentFailed(NotConfigured), s))
      && (configured && (body.amount.None? || body.amount.value <= 0) ==> e == Served(PaymentFailed(InvalidAmount), s))
      && (configured && body.amount.Some? && body.amount.value > 0 && body.userId.None? ==> e == Served(PaymentFailed(UserRequired), s))
      && (e.reply.PaymentFailed? ==> e.after.paymentIntents == s.paymentIntents)
      && (configured && body.amount.Some? && body.amount.value > 0 && body.userId.Some? ==>
            var sent := OrderFor(body.amount.value, body.description, body.userId.value, s.nextId);
            && sent.amount == body.amount.value && sent.receipt == s.nextId
            && e.after.nextId == s.nextId + 1
            && e.after.wallets == s.wallets && e.after.transactions == s.transactions
            && (gateway(sent).OrderRejected? ==>
                  e.reply == PaymentFailed(ApiErrorPrefix + gateway(sent).reason))
            && (gateway(sent).OrderCreated? ==>
                  && e.reply.OrderOpened? && e.reply.orderId == gateway(sent).orderId
                  && e.reply.transactionId == s.nextId))
  {
  }

  /** The reply is 200 exactly when the order was opened; the intent is then
      recorded as CREATED for the requested amount and the user, under the
      transaction id the reply carries and the gateway's order id, unless
      the unchecked insert failed, in which case no intent exists and the
      client is still told the order is open. */
  lemma OpenedOrderRecorded(s: Store, configured: bool, body: PaymentBody, gateway: OrderPayload -> OrderReply, now: Timestamp, failing: set<Step>)
    ensures var e := CreateOrder(s, configured, body, gateway, now, failing);
      && (StatusCode(e.reply) == 200 <==> e.reply.OrderOpened?)
      && (e.reply.OrderOpened? ==>
            && configured && body.amount.Some? && body.amount.value > 0 && body.userId.Some?
            && (IntentInsert in failing ==> e.after.paymentIntents == s.paymentIntents)
            && (IntentInsert !in failing ==>
                  && |e.after.paymentIntents| == |s.paymentIntents| + 1
                  && e.after.paymentIntents[..|s.paymentIntents|] == s.paymentIntents
                  && var intent := e.after.paymentIntents[|s.paymentIntents|];
                  && intent.id == e.reply.transactionId && intent.providerTransactionId == e.reply.orderId
                  && intent.amount == body.amount.value && intent.userId == body.userId.value
                  && intent.status == "CREATED" && intent.paymentMethod == "RAZORPAY"
                  && intent.description == OrDefault(body.description, "Wallet deposit")))
  {
    var e := CreateOrder(s, configured, body, gateway, now, failing);
    if e.reply.OrderOpened? && IntentInsert !in failing {
      assert e.after.paymentIntents[..|s.paymentIntents|] == s.paymentIntents;
    }
  }
}
