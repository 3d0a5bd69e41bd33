/** How the round-up form, the payment function and the webhook compose:
    the order a payment opens is the one the webhook later completes, a
    form payment is always treated as a round-up, and a delivery that is
    replayed is credited again. */
module PaymentFlow {
  import opened Common
  import opened Ledger
  import opened Supabase
  import opened Gateway
  import Seqs
  import Text
  import RoundUpForm
  import RazorpayPayment
  import RazorpayWebhook

  /** The description the webhook sees for a payment made through the
      round-up form always mentions "Round-up", so the webhook credits it as
      a round-up: with a second flat draw on top of the paid amount. */
  lemma FormPaymentsCreditedAsRoundUps(original: nat, description: string, u: real)
    requires 0.0 <= u < 1.0
    ensures var p := RoundUpForm.Submit(original, description, u);
      RazorpayWebhook.IsRoundUp(OrDefault(p.description, "Wallet deposit"))
  {
    var p := RoundUpForm.Submit(original, description, u);
    RoundUpForm.SubmitMentionsRoundUp(original, description, u);
    RoundUpForm.SubmitShape(original, description, u);
    assert OrDefault(p.description, "Wallet deposit") == p.description;
  }

  /** The captured event the gateway sends for an order. */
  function CaptureOf(orderId: Id, paymentId: Id, amount: int): WebhookEvent {
    WebhookEvent("payment.captured", PaymentEntity(orderId, paymentId, amount, "captured"))
  }

  /** Round trip: when an order is opened for a new gateway order id and its
      intent is recorded, the capture of that order finds that intent, marks
      it SUCCESS, and credits the requesting user with the amount the
      gateway captured, which for the full order amount is the amount
      requested. */
  lemma OrderThenCapture(s: Store, configured: bool, body: RazorpayPayment.PaymentBody, gateway: OrderPayload -> OrderReply,
                         now: Timestamp, failing: set<Step>, paymentId: Id, u: real, later: Timestamp, failing2: set<Step>)
    requires 0.0 <= u < 1.0
    requires IntentInsert !in failing && IntentLookup !in failing2 && IntentUpdate !in failing2
    requires var e := RazorpayPayment.CreateOrder(s, configured, body, gateway, now, failing);
      && e.reply.OrderOpened?
      && forall k :: 0 <= k < |s.paymentIntents| ==> s.paymentIntents[k].providerTransactionId != e.reply.orderId
    ensures var e := RazorpayPayment.CreateOrder(s, configured, body, gateway, now, failing);
      var orderId := e.reply.orderId;
      var intent := RazorpayPayment.IntentFor(s.nextId, body.amount.value, body.description, body.userId.value, orderId, now);
      var ev := CaptureOf(orderId, paymentId, body.amount.value);
      && body.amount.Some? && body.userId.Some?
      && Single(IntentsForOrder(e.after.paymentIntents, orderId)) == Some(intent)
      && intent.userId == body.userId.value && intent.amount == body.amount.value
      && RazorpayWebhook.Captured(e.after, ev, u, later, failing2)
         == RazorpayWebhook.Credit(e.after.(paymentIntents := MarkSucceeded(e.after.paymentIntents, s.nextId, ev, later)),
              intent, body.amount.value, u, later, failing2)
  {
    var e := RazorpayPayment.CreateOrder(s, configured, body, gateway, now, failing);
    RazorpayPayment.OpenedOrderRecorded(s, configured, body, gateway, now, failing);
    var orderId := e.reply.orderId;
    var intent := RazorpayPayment.IntentFor(s.nextId, body.amount.value, body.description, body.userId.value, orderId, now);
    assert e.after.paymentIntents == s.paymentIntents + [intent];
    var p := (i: IntentRow) => i.providerTransactionId == orderId;
    Seqs.FilterAppend(s.paymentIntents, [intent], p);
    Seqs.FilterNone(s.paymentIntents, p);
    assert Seqs.Filter([intent], p) == [intent];
    assert IntentsForOrder(e.after.paymentIntents, orderId) == [intent];
  }

  /** The payer of a captured payment owns exactly wallet k. */
  ghost predicate PaidTo(s: Store, ev: WebhookEvent, k: nat) {
    var found := Single(IntentsForOrder(s.paymentIntents, ev.payment.orderId));
    && found.Some? && !RazorpayWebhook.IsRoundUp(found.value.description)
    && k < |s.wallets| && s.wallets[k].userId == found.value.userId
    && forall j :: 0 <= j < |s.wallets| && j != k ==> s.wallets[j].userId != found.value.userId
  }

  /** Marking the order's intent keeps it the order's only intent, with
      the same payer and description. */
  lemma MarkKeepsPayer(s: Store, ev: WebhookEvent, k: nat, now: Timestamp)
    requires PaidTo(s, ev, k)
    ensures var intent := Single(IntentsForOrder(s.paymentIntents, ev.payment.orderId)).value;
      var s1 := s.(paymentIntents := MarkSucceeded(s.paymentIntents, intent.id, ev, now));
      && PaidTo(s1, ev, k)
      && Single(IntentsForOrder(s1.paymentIntents, ev.payment.orderId)).value.userId == intent.userId
  {
    var pI := (i: IntentRow) => i.providerTransactionId == ev.payment.orderId;
    var i := Seqs.FilterOne(s.paymentIntents, pI);
    var marked := MarkSucceeded(s.paymentIntents, s.paymentIntents[i].id, ev, now);
    Seqs.FilterSingle(marked, i, pI);
  }

  /** Whether an order is paid to wallet k depends only on the intents and
      on who owns which wallet. */
  lemma PaidToFollowsOwners(a: Store, b: Store, ev: WebhookEvent, k: nat)
    requires PaidTo(a, ev, k) && b.paymentIntents == a.paymentIntents && |b.wallets| == |a.wallets|
    requires forall j :: 0 <= j < |a.wallets| ==> b.wallets[j].userId == a.wallets[j].userId
    ensures PaidTo(b, ev, k)
  {
  }

  /** One delivery of a captured deposit to its payer's only wallet: 200,
      the wallet up by the captured amount, one row more, and afterwards the
      same order still leads to the same payer and wallet. */
  lemma CapturedDeposit(s: Store, ev: WebhookEvent, k: nat, u: real, now: Timestamp, failing: set<Step>)
    requires 0.0 <= u < 1.0 && WellFormed(s) && ev.payment.status == "captured"
    requires failing !! {IntentLookup, IntentUpdate, WalletLookup, BalanceUpdate, TxInsert}
    requires PaidTo(s, ev, k)
    ensures var e := RazorpayWebhook.Captured(s, ev, u, now, failing);
      && e.reply == RazorpayWebhook.OkReply && WellFormed(e.after) && PaidTo(e.after, ev, k)
      && |e.after.wallets| == |s.wallets|
      && TotalsOf(e.after.wallets[k]) == Plus(TotalsOf(s.wallets[k]), Totals(ev.payment.amount, 0))
      && |e.after.transactions| == |s.transactions| + 1
  {
    var amount := ev.payment.amount;
    var intent := Single(IntentsForOrder(s.paymentIntents, ev.payment.orderId)).value;
    var s1 := s.(paymentIntents := MarkSucceeded(s.paymentIntents, intent.id, ev, now));
    MarkKeepsPayer(s, ev, k, now);
    assert WellFormed(s1);
    var pW := (w: WalletRow) => w.userId == intent.userId;
    Seqs.FilterSingle(s.wallets, k, pW);
    RazorpayWebhook.CreditOutcome(s1, intent, amount, u, now, failing);
    var e := RazorpayWebhook.Captured(s, ev, u, now, failing);
    assert e == RazorpayWebhook.Post(s1, s.wallets[k], intent, amount, u, now, failing);
    RazorpayWebhook.PostOutcome(s1, k, intent, amount, u, now, failing);
    RazorpayWebhook.PostKeepsWellFormed(s1, s.wallets[k], intent, amount, u, now, failing);
    PaidToFollowsOwners(s1, e.after, ev, k);
  }

  /** The webhook keeps no record of deliveries it has handled: the same
      captured deposit delivered twice is credited twice, with two rows
      logged, even though the intent is already marked SUCCESS after the
      first delivery. */
  lemma ReplayedCaptureCreditsTwice(s: Store, ev: WebhookEvent, k: nat, u: real, now: Timestamp, later: Timestamp, failing: set<Step>)
    requires 0.0 <= u < 1.0 && WellFormed(s) && ev.payment.status == "captured"
    requires failing !! {IntentLookup, IntentUpdate, WalletLookup, BalanceUpdate, TxInsert}
    requires PaidTo(s, ev, k)
    ensures var e1 := RazorpayWebhook.Captured(s, ev, u, now, failing);
      var e2 := RazorpayWebhook.Captured(e1.after, ev, u, later, failing);
      && e1.reply == RazorpayWebhook.OkReply && e2.reply == RazorpayWebhook.OkReply
      && |e2.after.wallets| == |s.wallets|
      && TotalsOf(e2.after.wallets[k]) == Plus(TotalsOf(s.wallets[k]), Totals(2 * ev.payment.amount, 0))
      && |e2.after.transactions| == |s.transactions| + 2
  {
    CapturedDeposit(s, ev, k, u, now, failing);
    var e1 := RazorpayWebhook.Captured(s, ev, u, now, failing);
    CapturedDeposit(e1.after, ev, k, u, later, failing);
  }
}
