/** The payment webhook edge function
    (supabase/functions/razorpay-webhook/index.ts): it checks the delivery's
    signature, marks the payment intent of a captured payment as SUCCESS,
    and credits the payer's wallet, creating the wallet when there is none.
    A payment whose description mentions a round-up is credited with an
    extra flat round-up and logged as a round-up.

    The HMAC-SHA256 hex digest is the parameter `hmac`, the parsed JSON body
    is part of the delivery, and Math.random() is the draw u. */
module RazorpayWebhook {
  import opened Common
  import opened WalletTypes
  import opened Ledger
  import opened Supabase
  import opened Gateway
  import opened RoundUp
  import Text
  import Seqs

  const InvalidSignature := "Invalid webhook signature"
  const Processed := "Webhook processed successfully"
  const NotFoundPrefix := "Transaction not found for order: "
  /** What JSON.parse throws on a body that is not JSON (the runtime's own
      wording is not modelled). */
  const MalformedBody := "malformed JSON body"

  /** The HTTP status and the message of the JSON answer. */
  datatype WebhookReply = WebhookReply(status: nat, message: string)

  const OkReply := WebhookReply(200, Processed)

  function Failed(message: string): WebhookReply {
    WebhookReply(500, message)
  }

  /** A delivery: the raw body, what it parses to (None when it is not
      JSON), and the x-razorpay-signature header. */
  datatype Delivery = Delivery(body: string, parsed: Option<WebhookEvent>, signature: Option<string>)

  /** verifySignature: with no secret configured every signature passes;
      otherwise it must equal the digest of the body under the secret. */
  predicate VerifySignature(secret: string, body: string, signature: string, hmac: (string, string) -> string) {
    secret == "" || signature == hmac(secret, body)
  }

  /** A payment is a round-up when its description contains "Round-up" or
      "round-up". */
  predicate IsRoundUp(description: string) {
    Text.Contains(description, "Round-up") || Text.Contains(description, "round-up")
  }

  /** The extra amount a payment is credited with: a flat draw for a
      round-up, nothing otherwise. */
  function RoundUpShare(description: string, u: real): (r: Paise)
    requires 0.0 <= u < 1.0
    ensures IsRoundUp(description) ==> 500 <= r <= 999
    ensures !IsRoundUp(description) ==> r == 0
  {
    if IsRoundUp(description) then FlatRoundUp(u) else 0
  }

  /** The wallet created for a payer who has none. */
  function NewWallet(id: Id, userId: Id, now: Timestamp): WalletRow {
    WalletRow(id, userId, 0, 0, 0, now)
  }

  /** The transactions row logged for a credited payment. */
  function CreditRow(id: Id, w: WalletRow, intent: IntentRow, amount: Paise, u: real, now: Timestamp): Transaction
    requires 0.0 <= u < 1.0
  {
    Transaction(id, if IsRoundUp(intent.description) then RoundUp else Deposit,
      amount + RoundUpShare(intent.description, u), "success",
      OrDefault(intent.description, "Razorpay payment"), now, w.id, Some(intent.userId))
  }

  /** The handler: the body is parsed, then a present, non-empty signature
      header is checked. */
  function Handle(s: Store, secret: string, hmac: (string, string) -> string, d: Delivery, u: real, now: Timestamp, failing: set<Step>): Served<WebhookReply>
    requires 0.0 <= u < 1.0
  {
    if d.parsed.None? then Served(Failed(MalformedBody), s)
    else if d.signature.Some? && d.signature.value != "" && !VerifySignature(secret, d.body, d.signature.value, hmac) then
      Served(Failed(InvalidSignature), s)
    else AfterSignature(s, d.parsed.value, u, now, failing)
  }

  /** Only payment.captured events are acted on. */
  function AfterSignature(s: Store, ev: WebhookEvent, u: real, now: Timestamp, failing: set<Step>): Served<WebhookReply>
    requires 0.0 <= u < 1.0
  {
    if ev.event != "payment.captured" then Served(OkReply, s)
    else Captured(s, ev, u, now, failing)
  }

  /** The intent of the order (`.single()`), marked SUCCESS whatever the
      payment's status; only a captured payment is credited. */
  function Captured(s: Store, ev: WebhookEvent, u: real, now: Timestamp, failing: set<Step>): Served<WebhookReply>
    requires 0.0 <= u < 1.0
  {
    var p := ev.payment;
    var found := Single(IntentsForOrder(s.paymentIntents, p.orderId));
    if IntentLookup in failing || found.None? then
      Served(WebhookReply(404, NotFoundPrefix + Text.NatText(p.orderId)), s)
    else if IntentUpdate in failing then Served(Failed(StoreFailure), s)
    else
      var marked := s.(paymentIntents := MarkSucceeded(s.paymentIntents, found.value.id, ev, now));
      if p.status != "captured" then Served(OkReply, marked)
      else Credit(marked, found.value, p.amount, u, now, failing)
  }

  /** The payer's wallet by `.maybeSingle()`, created with zero totals when
      there is none. */
  function Credit(s: Store, intent: IntentRow, amount: Paise, u: real, now: Timestamp, failing: set<Step>): Served<WebhookReply>
    requires 0.0 <= u < 1.0
  {
    var lookup := MaybeSingle(WalletsOfUser(s.wallets, intent.userId));
    if WalletLookup in failing || lookup.ManyRows? then Served(Failed(StoreFailure), s)
    else if lookup.OneRow? then Post(s, lookup.row, intent, amount, u, now, failing)
    else if WalletInsert in failing then Served(Failed(StoreFailure), s)
    else
      var w := NewWallet(s.nextId, intent.userId, now);
      Post(s.(wallets := s.wallets + [w], nextId := s.nextId + 1), w, intent, amount, u, now, failing)
  }

  /** The wallet write, then the transactions row; each error is thrown, and
      what was already written stays. */
  function Post(s: Store, w: WalletRow, intent: IntentRow, amount: Paise, u: real, now: Timestamp, failing: set<Step>): Served<WebhookReply>
    requires 0.0 <= u < 1.0
  {
    var r := RoundUpShare(intent.description, u);
    if BalanceUpdate in failing then Served(Failed(StoreFailure), s)
    else
      var updated := s.(wallets := SetTotals(s.wallets, w.id, Totals(w.balance + (amount + r), w.roundupTotal + r), now));
      if TxInsert in failing then Served(Failed(StoreFailure), updated)
      else Served(OkReply, updated.(transactions := updated.transactions + [CreditRow(s.nextId, w, intent, amount, u, now)], nextId := s.nextId + 1))
  }

  method HandleWebhook(db: Db, secret: string, hmac: (string, string) -> string, d: Delivery, u: real, now: Timestamp, failing: set<Step>)
    returns (reply: WebhookReply)
    requires 0.0 <= u < 1.0 && db.Valid()
    modifies db
    ensures db.Valid()
    ensures var e := Handle(old(db.Snapshot()), secret, hmac, d, u, now, failing);
      reply == e.reply && db.Snapshot() == e.after
  {
    HandleKeepsWellFormed(db.Snapshot(), secret, hmac, d, u, now, failing);
    if d.parsed.None? {
      return Failed(MalformedBody);
    }
    if d.signature.Some? && d.signature.value != "" && !VerifySignature(secret, d.body, d.signature.value, hmac) {
      return Failed(InvalidSignature);
    }
    var ev := d.parsed.value;
    if ev.event != "payment.captured" {
      return OkReply;
    }
    var p := ev.payment;
    var found := Single(IntentsForOrder(db.paymentIntents, p.orderId));
    if IntentLookup in failing || found.None? {
      return WebhookReply(404, NotFoundPrefix + Text.NatText(p.orderId));
    }
    if IntentUpdate in failing {
      return Failed(StoreFailure);
    }
    var intent := found.value;
    db.paymentIntents := MarkSucceeded(db.paymentIntents, intent.id, ev, now);
    if p.status != "captured" {
      return OkReply;
    }
    reply := CreditPayment(db, intent, p.amount, u, now, failing);
  }

  method CreditPayment(db: Db, intent: IntentRow, amount: Paise, u: real, now: Timestamp, failing: set<Step>)
    returns (reply: WebhookReply)
    requires 0.0 <= u < 1.0 && db.Valid()
    modifies db
    ensures db.Valid()
    ensures var e := Credit(old(db.Snapshot()), intent, amount, u, now, failing);
      reply == e.reply && db.Snapshot() == e.after
  {
    CreditKeepsWellFormed(db.Snapshot(), intent, amount, u, now, failing);
    var lookup := MaybeSingle(WalletsOfUser(db.wallets, intent.userId));
    if WalletLookup in failing || lookup.ManyRows? {
      return Failed(StoreFailure);
    }
    var w;
    if lookup.OneRow? {
      w := lookup.row;
      Seqs.FilterMembers(db.wallets, (w: WalletRow) => w.userId == intent.userId);
      assert w in db.wallets;
    } else {
      if WalletInsert in failing {
        return Failed(StoreFailure);
      }
      var id := db.FreshId();
      w := NewWallet(id, intent.userId, now);
      db.wallets := db.wallets + [w];
    }
    reply := PostPayment(db, w, intent, amount, u, now, failing);
  }

  method PostPayment(db: Db, w: WalletRow, intent: IntentRow, amount: Paise, u: real, now: Timestamp, failing: set<Step>)
    returns (reply: WebhookReply)
    requires 0.0 <= u < 1.0 && db.Valid() && w.id < db.nextId
    modifies db
    ensures db.Valid()
    ensures var e := Post(old(db.Snapshot()), w, intent, amount, u, now, failing);
      reply == e.reply && db.Snapshot() == e.after
  {
    PostKeepsWellFormed(db.Snapshot(), w, intent, amount, u, now, failing);
    var r := RoundUpShare(intent.description, u);
    if BalanceUpdate in failing {
      return Failed(StoreFailure);
    }
    db.wallets := SetTotals(db.wallets, w.id, Totals(w.balance + (amount + r), w.roundupTotal + r), now);
    if TxInsert in failing {
      return Failed(StoreFailure);
    }
    var rowId := db.FreshId();
    db.transactions := db.transactions + [CreditRow(rowId, w, intent, amount, u, now)];
    reply := OkReply;
  }

  // ---- well-formedness ----

  lemma PostKeepsWellFormed(s: Store, w: WalletRow, intent: IntentRow, amount: Paise, u: real, now: Timestamp, failing: set<Step>)
    requires 0.0 <= u < 1.0 && WellFormed(s) && w.id < s.nextId
    ensures WellFormed(Post(s, w, intent, amount, u, now, failing).after)
  {
    if BalanceUpdate !in failing {
      var r := RoundUpShare(intent.description, u);
      var t := Totals(w.balance + (amount + r), w.roundupTotal + r);
      SetTotalsKeepsWellFormed(s, w.id, t, now);
      var updated := s.(wallets := SetTotals(s.wallets, w.id, t, now));
      if TxInsert !in failing {
        InsertTxKeepsWellFormed(updated, CreditRow(s.nextId, w, intent, amount, u, now));
      }
    }
  }

  lemma CreditKeepsWellFormed(s: Store, intent: IntentRow, amount: Paise, u: real, now: Timestamp, failing: set<Step>)
    requires 0.0 <= u < 1.0 && WellFormed(s)
    ensures WellFormed(Credit(s, intent, amount, u, now, failing).after)
  {
    var lookup := MaybeSingle(WalletsOfUser(s.wallets, intent.userId));
    if WalletLookup !in failing && lookup.OneRow? {
      Seqs.FilterMembers(s.wallets, (w: WalletRow) => w.userId == intent.userId);
      assert lookup.row in s.wallets;
      PostKeepsWellFormed(s, lookup.row, intent, amount, u, now, failing);
    } else if WalletLookup !in failing && lookup.NoRow? && WalletInsert !in failing {
      var w := NewWallet(s.nextId, intent.userId, now);
      var withWallet := s.(wallets := s.wallets + [w], nextId := s.nextId + 1);
      assert WellFormed(withWallet);
      PostKeepsWellFormed(withWallet, w, intent, amount, u, now, failing);
    }
  }

  lemma HandleKeepsWellFormed(s: Store, secret: string, hmac: (string, string) -> string, d: Delivery, u: real, now: Timestamp, failing: set<Step>)
    requires 0.0 <= u < 1.0 && WellFormed(s)
    ensures WellFormed(Handle(s, secret, hmac, d, u, now, failing).after)
  {
    if d.parsed.Some? && d.parsed.value.event == "payment.captured" {
      var ev := d.parsed.value;
      var found := Single(IntentsForOrder(s.paymentIntents, ev.payment.orderId));
      if IntentLookup !in failing && found.Some? && IntentUpdate !in failing {
        var marked := s.(paymentIntents := MarkSucceeded(s.paymentIntents, found.value.id, ev, now));
        assert WellFormed(marked);
        CreditKeepsWellFormed(marked, found.value, ev.payment.amount, u, now, failing);
      }
    }
  }

  // ---- the signature gate and the event filter ----

  /** A delivery that parses is refused exactly when it carries a non-empty
      signature header, a secret is configured, and the header differs from
      the body's digest; refused or not, it is otherwise processed as if no
      check existed. In particular a delivery without the header is
      processed whatever the secret. */
  lemma SignatureGate(s: Store, secret: string, hmac: (string, string) -> string, d: Delivery, u: real, now: Timestamp, failing: set<Step>)
    requires 0.0 <= u < 1.0 && d.parsed.Some?
    ensures var e := Handle(s, secret, hmac, d, u, now, failing);
      var refused := d.signature.Some? && d.signature.value != "" && secret != "" && d.signature.value != hmac(secret, d.body);
      && (refused <==> e.reply == Failed(InvalidSignature))
      && (refused ==> e.after == s)
      && (!refused ==> e == AfterSignature(s, d.parsed.value, u, now, failing))
  {
  }

  /** A body that is not JSON is answered with 500 before the signature is
      looked at, and nothing is written. */
  lemma MalformedBodyRejected(s: Store, secret: string, hmac: (string, string) -> string, d: Delivery, u: real, now: Timestamp, failing: set<Step>)
    requires 0.0 <= u < 1.0 && d.parsed.None?
    ensures var e := Handle(s, secret, hmac, d, u, now, failing);
      e.reply.status == 500 && e.after == s
  {
  }

  /** Every event other than payment.captured is acknowledged with 200 and
      changes nothing. */
  lemma OtherEventsIgnored(s: Store, ev: WebhookEvent, u: real, now: Timestamp, failing: set<Step>)
    requires 0.0 <= u < 1.0 && ev.event != "payment.captured"
    ensures AfterSignature(s, ev, u, now, failing) == Served(OkReply, s)
  {
  }

  /** A captured payment whose order has no single intent, or whose intent
      cannot be read, is answered 404 with nothing written, and only then.
      Once the intent is found and its update succeeds, the intent table
      after the call is the intent marked SUCCESS with the delivery, whatever
      the payment's status and whatever fails later; a payment that is not
      in the captured state changes nothing else. */
  lemma CapturedOutcome(s: Store, ev: WebhookEvent, u: real, now: Timestamp, failing: set<Step>)
    requires 0.0 <= u < 1.0
    ensures var e := Captured(s, ev, u, now, failing);
      var found := Single(IntentsForOrder(s.paymentIntents, ev.payment.orderId));
      && (e.reply.status == 404 <==> IntentLookup in failing || found.None?)
      && (e.reply.status == 404 ==> e.after == s && e.reply.message == NotFoundPrefix + Text.NatText(ev.payment.orderId))
      && (IntentLookup !in failing && found.Some? ==>
            && (IntentUpdate in failing ==> e == Served(Failed(StoreFailure), s))
            && (IntentUpdate !in failing ==>
                  var marked := MarkSucceeded(s.paymentIntents, found.value.id, ev, now);
                  && e.after.paymentIntents == marked
                  && (ev.payment.status != "captured" ==> e == Served(OkReply, s.(paymentIntents := marked)))))
  {
  }

  // ---- the credit ----

  /** The wallet write moves wallet k by the paid amount plus the round-up
      share in balance and by the share alone in the round-up total, and
      touches no other wallet; then a successful row of the same total is
      logged, as a round-up exactly when the description mentions one, under
      the intent's user and its description ("Razorpay payment" when empty).
      A failing wallet write writes nothing; a failing row insert leaves the
      wallet write in place. */
  lemma PostOutcome(s: Store, k: nat, intent: IntentRow, amount: Paise, u: real, now: Timestamp, failing: set<Step>)
    requires 0.0 <= u < 1.0 && DistinctWalletIds(s.wallets) && k < |s.wallets|
    ensures var w := s.wallets[k];
      var r := RoundUpShare(intent.description, u);
      var e := Post(s, w, intent, amount, u, now, failing);
      && e.after.paymentIntents == s.paymentIntents && e.after.eduScores == s.eduScores
      && (BalanceUpdate in failing ==> e == Served(Failed(StoreFailure), s))
      && (BalanceUpdate !in failing ==>
            && |e.after.wallets| == |s.wallets|
            && TotalsOf(e.after.wallets[k]) == Plus(TotalsOf(w), Totals(amount + r, r))
            && e.after.wallets[k].lastTransactionDate == now
            && e.after.wallets[k].id == w.id && e.after.wallets[k].userId == w.userId
            && (forall j :: 0 <= j < |s.wallets| && j != k ==> e.after.wallets[j] == s.wallets[j])
            && (TxInsert in failing ==> e.reply == Failed(StoreFailure) && e.after.transactions == s.transactions)
            && (TxInsert !in failing ==>
                  && e.reply == OkReply
                  && |e.after.transactions| == |s.transactions| + 1
                  && e.after.transactions[..|s.transactions|] == s.transactions
                  && var row := e.after.transactions[|s.transactions|];
                  && row.walletId == w.id && row.userId == Some(intent.userId) && Succeeded(row)
                  && row.amount == amount + r
                  && (row.txType == RoundUp <==> IsRoundUp(intent.description))
                  && (!IsRoundUp(intent.description) ==> row.txType == Deposit)
                  && row.description == OrDefault(intent.description, "Razorpay payment")))
  {
    var e := Post(s, s.wallets[k], intent, amount, u, now, failing);
    if BalanceUpdate !in failing {
      forall j | 0 <= j < |s.wallets| && j != k
        ensures e.after.wallets[j] == s.wallets[j]
      {
        assert s.wallets[j].id != s.wallets[k].id;
      }
      if TxInsert !in failing {
        assert e.after.transactions[..|s.transactions|] == s.transactions;
      }
    }
  }

  // ---- the credit against the ledger invariant ----

  /** A credited deposit moves the wallet by exactly what its logged row
      contributes, so the ledger stays consistent. */
  lemma PostDepositKeepsConsistency(s: Store, k: nat, intent: IntentRow, amount: Paise, u: real, now: Timestamp, failing: set<Step>)
    requires 0.0 <= u < 1.0 && DistinctWalletIds(s.wallets) && k < |s.wallets| && Consistent(s.wallets, s.transactions)
    requires !IsRoundUp(intent.description) && BalanceUpdate !in failing && TxInsert !in failing
    ensures var e := Post(s, s.wallets[k], intent, amount, u, now, failing);
      Consistent(e.after.wallets, e.after.transactions)
  {
    var w := s.wallets[k];
    var row := CreditRow(s.nextId, w, intent, amount, u, now);
    var e := Post(s, w, intent, amount, u, now, failing);
    var t := Plus(Replay(s.transactions, w.id), Contribution(row, w.id));
    assert TotalsOf(w) == Replay(s.transactions, w.id);
    assert Contribution(row, w.id) == Totals(amount, 0);
    assert t == Totals(w.balance + (amount + 0), w.roundupTotal + 0);
    assert e.after.wallets == SetTotals(s.wallets, w.id, t, now);
    assert e.after.transactions == s.transactions + [row];
    CreditPreservesConsistency(s.wallets, s.transactions, row, now);
  }

  /** A credited round-up of a non-zero payment breaks the ledger: the
      wallet's round-up total grows by the drawn share only, while the logged
      round-up row counts the whole credited amount. */
  lemma PostRoundUpBreaksConsistency(s: Store, k: nat, intent: IntentRow, amount: Paise, u: real, now: Timestamp, failing: set<Step>)
    requires 0.0 <= u < 1.0 && DistinctWalletIds(s.wallets) && k < |s.wallets| && Consistent(s.wallets, s.transactions)
    requires IsRoundUp(intent.description) && amount != 0 && BalanceUpdate !in failing && TxInsert !in failing
    ensures var e := Post(s, s.wallets[k], intent, amount, u, now, failing);
      e.reply == OkReply && !Consistent(e.after.wallets, e.after.transactions)
  {
    var w := s.wallets[k];
    var r := RoundUpShare(intent.description, u);
    var row := CreditRow(s.nextId, w, intent, amount, u, now);
    var e := Post(s, w, intent, amount, u, now, failing);
    PostOutcome(s, k, intent, amount, u, now, failing);
    assert e.after.transactions == s.transactions + [row];
    ReplayAppend(s.transactions, row, w.id);
    assert Contribution(row, w.id) == Totals(amount + r, amount + r);
    assert TotalsOf(e.after.wallets[k]).roundupTotal == w.roundupTotal + r;
    assert Replay(e.after.transactions, w.id).roundupTotal == w.roundupTotal + amount + r;
  }

  /** A row insert that fails after the wallet write leaves the wallet
      credited with no row behind it: the ledger breaks whenever something
      was credited, although the caller is told the call failed. */
  lemma PartialPostBreaksConsistency(s: Store, k: nat, intent: IntentRow, amount: Paise, u: real, now: Timestamp, failing: set<Step>)
    requires 0.0 <= u < 1.0 && DistinctWalletIds(s.wallets) && k < |s.wallets| && Consistent(s.wallets, s.transactions)
    requires BalanceUpdate !in failing && TxInsert in failing && amount + RoundUpShare(intent.description, u) != 0
    ensures var e := Post(s, s.wallets[k], intent, amount, u, now, failing);
      e.reply.status == 500 && !Consistent(e.after.wallets, e.after.transactions)
  {
    var w := s.wallets[k];
    var r := RoundUpShare(intent.description, u);
    var e := Post(s, w, intent, amount, u, now, failing);
    PostOutcome(s, k, intent, amount, u, now, failing);
    PlusMoves(TotalsOf(w), Totals(amount + r, r));
    assert TotalsOf(e.after.wallets[k]) != Replay(e.after.transactions, e.after.wallets[k].id);
  }

  // ---- the payer's wallet ----

  /** The store with a new zero wallet for the payer is still consistent,
      and the new wallet is the last row. */
  lemma OpenWallet(s: Store, uid: Id, now: Timestamp)
    requires WellFormed(s) && Consistent(s.wallets, s.transactions)
    ensures var w := NewWallet(s.nextId, uid, now);
      var s1 := s.(wallets := s.wallets + [w], nextId := s.nextId + 1);
      && WellFormed(s1) && Consistent(s1.wallets, s1.transactions)
      && s1.wallets[|s.wallets|] == w
  {
    var w := NewWallet(s.nextId, uid, now);
    NewWalletPreservesConsistency(s.wallets, s.transactions, w);
  }

  /** A failed or ambiguous wallet read, or a failed wallet creation, writes
      nothing. A payer with no wallet gets one, with the next id and zero
      totals, and keeps it even when the credit then fails; with the wallet
      write it ends with the paid amount plus the share in balance and the
      share in round-up total. A payer with one wallet is credited on that
      wallet. */
  lemma CreditOutcome(s: Store, intent: IntentRow, amount: Paise, u: real, now: Timestamp, failing: set<Step>)
    requires 0.0 <= u < 1.0 && WellFormed(s)
    ensures var e := Credit(s, intent, amount, u, now, failing);
      var lookup := MaybeSingle(WalletsOfUser(s.wallets, intent.userId));
      var r := RoundUpShare(intent.description, u);
      && (WalletLookup in failing || lookup.ManyRows? || (lookup.NoRow? && WalletInsert in failing) ==>
            e == Served(Failed(StoreFailure), s))
      && (WalletLookup !in failing && lookup.OneRow? ==>
            UserWallet(s.wallets, intent.userId) == Some(lookup.row) && e == Post(s, lookup.row, intent, amount, u, now, failing))
      && (WalletLookup !in failing && lookup.NoRow? && WalletInsert !in failing ==>
            && |e.after.wallets| == |s.wallets| + 1
            && e.after.wallets[..|s.wallets|] == s.wallets
            && var w := e.after.wallets[|s.wallets|];
            && w.id == s.nextId && w.userId == intent.userId
            && (BalanceUpdate in failing ==> TotalsOf(w) == Zero)
            && (BalanceUpdate !in failing ==> TotalsOf(w) == Totals(amount + r, r)))
  {
    var lookup := MaybeSingle(WalletsOfUser(s.wallets, intent.userId));
    if WalletLookup !in failing && lookup.OneRow? {
      var k := MaybeSingleWalletIsRow(s.wallets, intent.userId);
    } else if WalletLookup !in failing && lookup.NoRow? && WalletInsert !in failing {
      var w := NewWallet(s.nextId, intent.userId, now);
      var s1 := s.(wallets := s.wallets + [w], nextId := s.nextId + 1);
      assert WellFormed(s1) && s1.wallets[|s.wallets|] == w;
      PostOutcome(s1, |s.wallets|, intent, amount, u, now, failing);
      var e := Credit(s, intent, amount, u, now, failing);
      assert e == Post(s1, w, intent, amount, u, now, failing);
      if BalanceUpdate !in failing {
        assert e.after.wallets[..|s.wallets|] == s.wallets;
      }
    }
  }

  /** With the wallet write and the row insert working, a deposit keeps the
      ledger consistent, whether the wallet existed or was just created. */
  lemma CreditDepositKeepsConsistency(s: Store, intent: IntentRow, amount: Paise, u: real, now: Timestamp, failing: set<Step>)
    requires 0.0 <= u < 1.0 && WellFormed(s) && Consistent(s.wallets, s.transactions)
    requires !IsRoundUp(intent.description) && BalanceUpdate !in failing && TxInsert !in failing
    ensures var e := Credit(s, intent, amount, u, now, failing);
      Consistent(e.after.wallets, e.after.transactions)
  {
    var lookup := MaybeSingle(WalletsOfUser(s.wallets, intent.userId));
    if WalletLookup !in failing && lookup.OneRow? {
      var k := MaybeSingleWalletIsRow(s.wallets, intent.userId);
      assert Credit(s, intent, amount, u, now, failing) == Post(s, s.wallets[k], intent, amount, u, now, failing);
      PostDepositKeepsConsistency(s, k, intent, amount, u, now, failing);
    } else if WalletLookup !in failing && lookup.NoRow? && WalletInsert !in failing {
      var w := NewWallet(s.nextId, intent.userId, now);
      var s1 := s.(wallets := s.wallets + [w], nextId := s.nextId + 1);
      OpenWallet(s, intent.userId, now);
      assert Credit(s, intent, amount, u, now, failing) == Post(s1, s1.wallets[|s.wallets|], intent, amount, u, now, failing);
      PostDepositKeepsConsistency(s1, |s.wallets|, intent, amount, u, now, failing);
    }
  }

  /** A credited round-up of a non-zero payment breaks the ledger, whether
      the wallet existed or was just created. */
  lemma CreditRoundUpBreaksConsistency(s: Store, intent: IntentRow, amount: Paise, u: real, now: Timestamp, failing: set<Step>)
    requires 0.0 <= u < 1.0 && WellFormed(s) && Consistent(s.wallets, s.transactions)
    requires IsRoundUp(intent.description) && amount != 0 && BalanceUpdate !in failing && TxInsert !in failing
    ensures var e := Credit(s, intent, amount, u, now, failing);
      e.reply == OkReply ==> !Consistent(e.after.wallets, e.after.transactions)
  {
    var lookup := MaybeSingle(WalletsOfUser(s.wallets, intent.userId));
    if WalletLookup !in failing && lookup.OneRow? {
      var k := MaybeSingleWalletIsRow(s.wallets, intent.userId);
      assert Credit(s, intent, amount, u, now, failing) == Post(s, s.wallets[k], intent, amount, u, now, failing);
      PostRoundUpBreaksConsistency(s, k, intent, amount, u, now, failing);
    } else if WalletLookup !in failing && lookup.NoRow? && WalletInsert !in failing {
      var w := NewWallet(s.nextId, intent.userId, now);
      var s1 := s.(wallets := s.wallets + [w], nextId := s.nextId + 1);
      OpenWallet(s, intent.userId, now);
      assert Credit(s, intent, amount, u, now, failing) == Post(s1, s1.wallets[|s.wallets|], intent, amount, u, now, failing);
      PostRoundUpBreaksConsistency(s1, |s.wallets|, intent, amount, u, now, failing);
    }
  }
}
