/** The wallet routes of the mirror (backend/routes/walletRoutes.js): look
    a wallet up by user, list a wallet's embedded transactions, and record
    a transaction by appending it to the wallet's embedded array and moving
    the aggregates in place.

    The wallet is saved through the schema of backend/models/Wallet.js,
    whose `min: 0` on the balance refuses a save that would leave the
    balance negative. Unlike the primary store's rule, this route SUBTRACTS a round-up from
    the balance while adding it to the round-up total, and it adds rewards
    to rewards_earned. Every error of the recording route is answered 400. */
module MirrorWalletRoutes {
  import opened Common
  import opened Mirror
  import Ledger

  /** The validation error `wallet.save()` throws for a negative balance. */
  const WalletValidationFailed := "Wallet validation failed"

  datatype WalletRouteReply =
    | WalletFound(wallet: MirrorWallet)
    | EntriesOf(entries: seq<MirrorEntry>)
    | EntryCreated(entry: MirrorEntry)
    | RouteError(status: nat, message: string)

  // ---- the lookups ----

  /** GET /user/:userId: the first wallet of the user. */
  method GetByUser(store: MirrorStore, userId: Id, failing: set<MirrorStep>) returns (reply: WalletRouteReply)
    ensures Query in failing ==> reply == RouteError(500, StoreFailure)
    ensures Query !in failing ==>
      (reply.WalletFound? <==> exists k :: 0 <= k < |store.wallets| && store.wallets[k].userId == userId)
    ensures Query !in failing && !reply.WalletFound? ==> reply == RouteError(404, WalletNotFound)
    ensures reply.WalletFound? ==>
      reply.wallet.userId == userId && reply.wallet == store.wallets[WalletOfUser(store.wallets, userId)]
  {
    if Query in failing {
      return RouteError(500, StoreFailure);
    }
    var k := WalletOfUser(store.wallets, userId);
    if k < 0 {
      return RouteError(404, WalletNotFound);
    }
    reply := WalletFound(store.wallets[k]);
  }

  /** GET /:walletId/transactions: the embedded array, in stored order. */
  method GetEntries(store: MirrorStore, walletId: Id, failing: set<MirrorStep>) returns (reply: WalletRouteReply)
    ensures Query in failing ==> reply == RouteError(500, StoreFailure)
    ensures Query !in failing ==>
      (reply.EntriesOf? <==> exists k :: 0 <= k < |store.wallets| && store.wallets[k].id == walletId)
    ensures Query !in failing && !reply.EntriesOf? ==> reply == RouteError(404, WalletNotFound)
    ensures reply.EntriesOf? ==> reply.entries == store.wallets[WalletWithId(store.wallets, walletId)].transactions
  {
    if Query in failing {
      return RouteError(500, StoreFailure);
    }
    var k := WalletWithId(store.wallets, walletId);
    if k < 0 {
      return RouteError(404, WalletNotFound);
    }
    reply := EntriesOf(store.wallets[k].transactions);
  }

  // ---- the aggregates and the fold they are meant to agree with ----

  datatype Aggregates = Aggregates(balance: Paise, roundupTotal: Paise, rewardsEarned: Paise)

  const NoChange := Aggregates(0, 0, 0)

  function Add(a: Aggregates, b: Aggregates): Aggregates {
    Aggregates(a.balance + b.balance, a.roundupTotal + b.roundupTotal, a.rewardsEarned + b.rewardsEarned)
  }

  function AggregatesOf(w: MirrorWallet): Aggregates {
    Aggregates(w.balance, w.roundupTotal, w.rewardsEarned)
  }

  /** Reference table of this route: what an entry of each kind does to
      the three aggregates; a type outside the four kinds does nothing. */
  function EntryEffect(txType: string, amount: Paise): Aggregates {
    match ParseType(txType)
    case Some(Deposit) => Aggregates(amount, 0, 0)
    case Some(Reward) => Aggregates(amount, 0, amount)
    case Some(Withdrawal) => Aggregates(-amount, 0, 0)
    case Some(RoundUp) => Aggregates(-amount, amount, 0)
    case None => NoChange
  }

  /** The sum of the effects of the embedded entries. */
  function Fold(entries: seq<MirrorEntry>): Aggregates {
    if |entries| == 0 then NoChange
    else Add(Fold(entries[..|entries| - 1]), EntryEffect(entries[|entries| - 1].txType, entries[|entries| - 1].amount))
  }

  /** A wallet whose aggregates are the fold of its embedded entries. */
  predicate Balanced(w: MirrorWallet) {
    AggregatesOf(w) == Fold(w.transactions)
  }

  /** The round-up rule of this route is the opposite of the primary
      store's on the balance: the same round-up lowers one and raises the
      other, while both raise the round-up total. */
  lemma RoundUpOppositeToPrimaryStore(amount: Paise)
    ensures EntryEffect("round-up", amount).balance == -Ledger.Delta(RoundUp, amount).balance
    ensures EntryEffect("round-up", amount).roundupTotal == Ledger.Delta(RoundUp, amount).roundupTotal
    ensures amount > 0 ==> EntryEffect("round-up", amount).balance < 0 < Ledger.Delta(RoundUp, amount).balance
  {
  }

  // ---- POST /transaction ----

  /** The wallet after recording `entry`: the entry appended, the
      aggregates moved by the entry's effect, the date stamped. */
  function WithEntry(w: MirrorWallet, entry: MirrorEntry, now: Timestamp): MirrorWallet {
    var a := Add(AggregatesOf(w), EntryEffect(entry.txType, entry.amount));
    MirrorWallet(w.id, w.userId, a.balance, a.roundupTotal, a.rewardsEarned, Some(now), w.transactions + [entry])
  }

  /** The wallet by id (404 when absent), a new entry with a generated id
      and the model's default status, the wallet updated and saved; the
      save is refused when the new balance is below the schema's 0. */
  function RecordTransaction(m: MirrorDocs, walletId: Id, txType: string, amount: Paise, description: Option<string>,
                             now: Timestamp, failing: set<MirrorStep>): Routed<WalletRouteReply> {
    if Query in failing then Routed(RouteError(400, StoreFailure), m)
    else
      var k := WalletWithId(m.wallets, walletId);
      if k < 0 then Routed(RouteError(404, WalletNotFound), m)
      else
        var entry := MirrorEntry(m.nextOid, txType, amount, description, Some(now), walletId, Some("success"));
        var generated := m.(nextOid := m.nextOid + 1);
        var updated := WithEntry(m.wallets[k], entry, now);
        if updated.balance < 0 then Routed(RouteError(400, WalletValidationFailed), generated)
        else if Write in failing then Routed(RouteError(400, StoreFailure), generated)
        else Routed(EntryCreated(entry), generated.(wallets := m.wallets[k := updated]))
  }

  method PostTransaction(store: MirrorStore, walletId: Id, txType: string, amount: Paise, description: Option<string>,
                         now: Timestamp, failing: set<MirrorStep>) returns (reply: WalletRouteReply)
    modifies store
    ensures var e := RecordTransaction(old(store.Snapshot()), walletId, txType, amount, description, now, failing);
      reply == e.reply && store.Snapshot() == e.after
  {
    if Query in failing {
      return RouteError(400, StoreFailure);
    }
    var k := WalletWithId(store.wallets, walletId);
    if k < 0 {
      return RouteError(404, WalletNotFound);
    }
    var wallet := store.wallets[k];
    var oid := store.FreshOid();
    var newTransaction := MirrorEntry(oid, txType, amount, description, Some(now), walletId, Some("success"));
    wallet := wallet.(transactions := wallet.transactions + [newTransaction]);
    if txType == "deposit" || txType == "reward" {
      wallet := wallet.(balance := wallet.balance + amount);
    } else if txType == "withdrawal" || txType == "round-up" {
      wallet := wallet.(balance := wallet.balance - amount);
    }
    if txType == "round-up" {
      wallet := wallet.(roundupTotal := wallet.roundupTotal + amount);
    }
    if txType == "reward" {
      wallet := wallet.(rewardsEarned := wallet.rewardsEarned + amount);
    }
    wallet := wallet.(lastTransactionDate := Some(now));
    if wallet.balance < 0 {
      return RouteError(400, WalletValidationFailed);
    }
    if Write in failing {
      return RouteError(400, StoreFailure);
    }
    store.wallets := store.wallets[k := wallet];
    reply := EntryCreated(newTransaction);
  }

  /** An unknown wallet id is a 404 with nothing written. A recorded
      transaction appends exactly one entry, with the generated id, after
      the unchanged earlier entries; deposit and reward raise the balance,
      withdrawal and round-up lower it; only a round-up raises the round-up
      total and only a reward raises rewards_earned; any other type string
      moves none of the three; the date is stamped; other wallets are
      untouched. A transaction that would leave the balance below 0 is
      refused with 400 by the schema, and a refused or failed save leaves
      every wallet as it was. */
  lemma RecordTransactionOutcome(m: MirrorDocs, walletId: Id, txType: string, amount: Paise, description: Option<string>,
                                 now: Timestamp, failing: set<MirrorStep>)
    ensures var e := RecordTransaction(m, walletId, txType, amount, description, now, failing);
      var k := WalletWithId(m.wallets, walletId);
      && (Query !in failing && k < 0 ==> e == Routed(RouteError(404, WalletNotFound), m))
      && (e.reply.RouteError? ==> e.after.wallets == m.wallets)
      && (Query !in failing && k >= 0 && m.wallets[k].balance + EntryEffect(txType, amount).balance < 0 ==>
            e.reply == RouteError(400, WalletValidationFailed))
      && (e.reply.EntryCreated? <==>
            Query !in failing && Write !in failing && k >= 0
            && m.wallets[k].balance + EntryEffect(txType, amount).balance >= 0)
      && (e.reply.EntryCreated? ==>
            var before := m.wallets[k];
            var after := e.after.wallets[k];
            && |e.after.wallets| == |m.wallets|
            && after.id == walletId && after.userId == before.userId
            && |after.transactions| == |before.transactions| + 1
            && after.transactions[..|before.transactions|] == before.transactions
            && after.transactions[|before.transactions|] == e.reply.entry
            && e.reply.entry.id == m.nextOid && e.reply.entry.walletId == walletId
            && e.reply.entry.txType == txType && e.reply.entry.amount == amount
            && (txType == "deposit" || txType == "reward" ==> after.balance == before.balance + amount)
            && (txType == "withdrawal" || txType == "round-up" ==> after.balance == before.balance - amount)
            && after.roundupTotal == before.roundupTotal + (if txType == "round-up" then amount else 0)
            && after.rewardsEarned == before.rewardsEarned + (if txType == "reward" then amount else 0)
            && (ParseType(txType).None? ==> AggregatesOf(after) == AggregatesOf(before))
            && after.balance >= 0
            && after.lastTransactionDate == Some(now)
            && forall j :: 0 <= j < |m.wallets| && j != k ==> e.after.wallets[j] == m.wallets[j])
  {
    var e := RecordTransaction(m, walletId, txType, amount, description, now, failing);
    var k := WalletWithId(m.wallets, walletId);
    if e.reply.EntryCreated? {
      var before := m.wallets[k];
      assert e.after.wallets[k].transactions[..|before.transactions|] == before.transactions;
    }
  }

  lemma FoldAppend(entries: seq<MirrorEntry>, entry: MirrorEntry)
    ensures Fold(entries + [entry]) == Add(Fold(entries), EntryEffect(entry.txType, entry.amount))
  {
    assert (entries + [entry])[..|entries|] == entries;
  }

  /** Recording keeps a balanced wallet balanced, whatever the type: the
      aggregates move by exactly what the appended entry contributes. */
  lemma RecordKeepsBalanced(m: MirrorDocs, walletId: Id, txType: string, amount: Paise, description: Option<string>,
                            now: Timestamp, failing: set<MirrorStep>)
    requires forall k :: 0 <= k < |m.wallets| ==> Balanced(m.wallets[k])
    ensures var e := RecordTransaction(m, walletId, txType, amount, description, now, failing);
      forall k :: 0 <= k < |e.after.wallets| ==> Balanced(e.after.wallets[k])
  {
    var k := WalletWithId(m.wallets, walletId);
    if Query !in failing && Write !in failing && k >= 0
       && m.wallets[k].balance + EntryEffect(txType, amount).balance >= 0 {
      var entry := MirrorEntry(m.nextOid, txType, amount, description, Some(now), walletId, Some("success"));
      FoldAppend(m.wallets[k].transactions, entry);
    }
  }

  /** The schema's `min: 0` on the balance is an invariant of the route:
      when every stored balance is non-negative, it stays so, whatever
      the type and the sign of the amount. */
  lemma RecordKeepsBalanceBound(m: MirrorDocs, walletId: Id, txType: string, amount: Paise, description: Option<string>,
                                now: Timestamp, failing: set<MirrorStep>)
    requires forall k :: 0 <= k < |m.wallets| ==> m.wallets[k].balance >= 0
    ensures var e := RecordTransaction(m, walletId, txType, amount, description, now, failing);
      forall k :: 0 <= k < |e.after.wallets| ==> e.after.wallets[k].balance >= 0
  {
  }

  /** An overdraft is refused: a withdrawal of 5 rupees from a wallet
      holding 1 rupee is answered 400 and writes nothing, and so is a
      round-up of the same size, which this route also subtracts. */
  lemma OverdraftRefused(w: MirrorWallet, description: Option<string>, now: Timestamp)
    requires w.balance == 100
    ensures var m := MirrorDocs([w], [], 0);
      && RecordTransaction(m, w.id, "withdrawal", 500, description, now, {}).reply == RouteError(400, WalletValidationFailed)
      && RecordTransaction(m, w.id, "withdrawal", 500, description, now, {}).after.wallets == [w]
      && RecordTransaction(m, w.id, "round-up", 500, description, now, {}).reply == RouteError(400, WalletValidationFailed)
  {
    var m := MirrorDocs([w], [], 0);
    assert WalletWithId(m.wallets, w.id) == 0;
  }
}
