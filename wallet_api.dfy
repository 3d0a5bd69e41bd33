/** The wallet routes of the document store (backend/routes/wallet.js),
    mounted behind the authentication middleware, so the signed-in user is
    always known: read the user's wallet with its 50 newest transactions,
    add a round-up of a random 5.00 to 9.99 rupees, and add a manual
    deposit.

    Each write saves a new transaction document and then the wallet; the
    two saves are separate, so the second can fail after the first has
    succeeded. A failure of a store call is a member of `failing`. */
module WalletApi {
  import opened Common
  import opened Ledger
  import opened Mongo
  import opened RoundUp
  import Seqs

  const ServerError := "Server error"
  const InvalidAmount := "Invalid amount"
  const RoundUpAdded := "Round-up transaction added"
  const DepositAdded := "Deposit added successfully"

  /** `.limit(50)` of the wallet listing. */
  const ListingLimit := 50

  /** The JSON answers of the three routes. */
  datatype WalletReply =
    | Listing(wallet: MongoWallet, transactions: seq<MongoTx>)
    | Added(message: string, transaction: MongoTx, newBalance: Paise)
    | Refused(status: nat, error: string)

  function StatusOf(r: WalletReply): nat {
    if r.Refused? then r.status else 200
  }

  function CreatedAt(t: MongoTx): int {
    t.createdAt
  }

  /** `Transaction.find({ walletId })`. */
  function TxsOfWallet(txs: seq<MongoTx>, walletId: Id): seq<MongoTx> {
    Seqs.Filter(txs, (t: MongoTx) => t.walletId == walletId)
  }

  // ---- GET / ----

  /** The wallet's transactions, newest first, cut to the first 50
      (`find({ walletId }).sort({ createdAt: -1 }).limit(50)`). */
  function Newest(transactions: seq<MongoTx>, walletId: Id): seq<MongoTx> {
    Seqs.Take(Seqs.SortDesc(TxsOfWallet(transactions, walletId), CreatedAt), ListingLimit)
  }

  /** Every listed transaction is a stored transaction of the wallet. */
  lemma NewestRows(transactions: seq<MongoTx>, walletId: Id)
    ensures var txs := Newest(transactions, walletId);
      forall k :: 0 <= k < |txs| ==> txs[k].walletId == walletId && txs[k] in transactions
  {
    var mine := TxsOfWallet(transactions, walletId);
    Seqs.FilterMembers(transactions, (t: MongoTx) => t.walletId == walletId);
    var sorted := Seqs.SortDesc(mine, CreatedAt);
    var txs := Newest(transactions, walletId);
    forall k | 0 <= k < |txs|
      ensures txs[k].walletId == walletId && txs[k] in transactions
    {
      assert txs[k] == sorted[k];
      assert sorted[k] in multiset(mine);
    }
  }

  /** The listing holds min(n, 50) of the wallet's n transactions, newest
      first, each one stored and belonging to the wallet, none twice more
      than stored; a transaction left out is no newer than any listed. */
  lemma NewestListing(transactions: seq<MongoTx>, walletId: Id)
    ensures var mine := TxsOfWallet(transactions, walletId);
      var txs := Newest(transactions, walletId);
      && |txs| == (if |mine| <= ListingLimit then |mine| else ListingLimit)
      && Seqs.SortedDesc(txs, CreatedAt)
      && (forall k :: 0 <= k < |txs| ==> txs[k].walletId == walletId && txs[k] in transactions)
      && multiset(txs) <= multiset(mine)
      && (forall t :: t in multiset(mine) - multiset(txs) ==>
            forall j :: 0 <= j < |txs| ==> t.createdAt <= txs[j].createdAt)
  {
    Seqs.TakeSorted(TxsOfWallet(transactions, walletId), ListingLimit, CreatedAt);
    NewestRows(transactions, walletId);
  }

  /** The user's first wallet and the listing of its newest transactions
      (see NewestListing). */
  method GetWallet(store: MongoStore, user: Id, failing: set<MongoStep>) returns (reply: WalletReply)
    ensures Find in failing ==> reply == Refused(500, ServerError)
    ensures Find !in failing && WalletOfUser(store.wallets, user) < 0 ==> reply == Refused(404, WalletNotFound)
    ensures reply.Listing? <==> Find !in failing && WalletOfUser(store.wallets, user) >= 0
    ensures reply.Listing? ==>
      var w := store.wallets[WalletOfUser(store.wallets, user)];
      reply.wallet == w && reply.transactions == Newest(store.transactions, w.id)
  {
    if Find in failing {
      return Refused(500, ServerError);
    }
    var k := WalletOfUser(store.wallets, user);
    if k < 0 {
      return Refused(404, WalletNotFound);
    }
    var w := store.wallets[k];
    var mine := TxsOfWallet(store.transactions, w.id);
    var txs := Seqs.Take(Seqs.SortDesc(mine, CreatedAt), ListingLimit);
    return Listing(w, txs);
  }

  // ---- POST /roundup and POST /deposit ----

  /** The shared tail of both writes, for the user's wallet k: save a new
      success transaction of `amount`, then raise the wallet's balance by
      `amount` and its round-up total by `roundup`, stamp its last
      transaction date and save it, which validates the `min: 0` bounds. */
  function Record(d: Docs, k: nat, user: Id, kind: TxType, amount: Paise, roundup: Paise, description: string,
                  message: string, now: Timestamp, failing: set<MongoStep>): Handled<WalletReply>
    requires k < |d.wallets|
  {
    var w := d.wallets[k];
    if TxSave in failing then Handled(Refused(500, ServerError), d)
    else
      var tx := MongoTx(d.nextOid, w.id, user, None, kind, amount, Success, Some(description), now);
      var saved := d.(transactions := d.transactions + [tx], nextOid := d.nextOid + 1);
      var updated := w.(balance := w.balance + amount, roundupTotal := w.roundupTotal + roundup, lastTransactionDate := now);
      if WalletSave in failing || !WalletBounds(updated) then Handled(Refused(500, ServerError), saved)
      else Handled(Added(message, tx, updated.balance), saved.(wallets := d.wallets[k := updated]))
  }

  /** POST /roundup: the user's wallet, then a flat round-up drawn from u.
      The amount in the request body is read but not used. */
  function PostRoundUp(d: Docs, user: Id, amount: Paise, description: string, u: real, now: Timestamp, failing: set<MongoStep>): Handled<WalletReply>
    requires 0.0 <= u < 1.0
  {
    if Find in failing then Handled(Refused(500, ServerError), d)
    else
      var k := WalletOfUser(d.wallets, user);
      if k < 0 then Handled(Refused(404, WalletNotFound), d)
      else
        var r := FlatRoundUp(u);
        Record(d, k, user, RoundUp, r, r, OrDefault(description, "Round-up from purchase"), RoundUpAdded, now, failing)
  }

  /** POST /deposit: a missing or non-positive amount is refused before the
      wallet is looked up; the deposit raises the balance alone. */
  function PostDeposit(d: Docs, user: Id, amount: Option<Paise>, description: string, now: Timestamp, failing: set<MongoStep>): Handled<WalletReply> {
    if amount.None? || amount.value <= 0 then Handled(Refused(400, InvalidAmount), d)
    else if Find in failing then Handled(Refused(500, ServerError), d)
    else
      var k := WalletOfUser(d.wallets, user);
      if k < 0 then Handled(Refused(404, WalletNotFound), d)
      else Record(d, k, user, Deposit, amount.value, 0, OrDefault(description, "Manual deposit"), DepositAdded, now, failing)
  }

  // ---- the handlers, updating the collections in place ----

  method SaveAndCredit(store: MongoStore, k: nat, user: Id, kind: TxType, amount: Paise, roundup: Paise, description: string,
                       message: string, now: Timestamp, failing: set<MongoStep>) returns (reply: WalletReply)
    requires store.Valid() && k < |store.wallets| && amount >= 0 && roundup >= 0
    modifies store
    ensures store.Valid()
    ensures var e := Record(old(store.Snapshot()), k, user, kind, amount, roundup, description, message, now, failing);
      reply == e.reply && store.Snapshot() == e.after
  {
    RecordKeepsStored(store.Snapshot(), k, user, kind, amount, roundup, description, message, now, failing);
    var wallet := store.wallets[k];
    if TxSave in failing {
      return Refused(500, ServerError);
    }
    var oid := store.FreshOid();
    var transaction := MongoTx(oid, wallet.id, user, None, kind, amount, Success, Some(description), now);
    store.transactions := store.transactions + [transaction];
    wallet := wallet.(balance := wallet.balance + amount);
    wallet := wallet.(roundupTotal := wallet.roundupTotal + roundup);
    wallet := wallet.(lastTransactionDate := now);
    if WalletSave in failing || !WalletBounds(wallet) {
      return Refused(500, ServerError);
    }
    store.wallets := store.wallets[k := wallet];
    reply := Added(message, transaction, wallet.balance);
  }

  method HandleRoundUp(store: MongoStore, user: Id, amount: Paise, description: string, u: real, now: Timestamp, failing: set<MongoStep>)
    returns (reply: WalletReply)
    requires store.Valid() && 0.0 <= u < 1.0
    modifies store
    ensures store.Valid()
    ensures var e := PostRoundUp(old(store.Snapshot()), user, amount, description, u, now, failing);
      reply == e.reply && store.Snapshot() == e.after
  {
    if Find in failing {
      return Refused(500, ServerError);
    }
    var k := WalletOfUser(store.wallets, user);
    if k < 0 {
      return Refused(404, WalletNotFound);
    }
    var roundupAmount := FlatRoundUp(u);
    reply := SaveAndCredit(store, k, user, RoundUp, roundupAmount, roundupAmount, OrDefault(description, "Round-up from purchase"), RoundUpAdded, now, failing);
  }

  method HandleDeposit(store: MongoStore, user: Id, amount: Option<Paise>, description: string, now: Timestamp, failing: set<MongoStep>)
    returns (reply: WalletReply)
    requires store.Valid()
    modifies store
    ensures store.Valid()
    ensures var e := PostDeposit(old(store.Snapshot()), user, amount, description, now, failing);
      reply == e.reply && store.Snapshot() == e.after
  {
    if amount.None? || amount.value <= 0 {
      return Refused(400, InvalidAmount);
    }
    if Find in failing {
      return Refused(500, ServerError);
    }
    var k := WalletOfUser(store.wallets, user);
    if k < 0 {
      return Refused(404, WalletNotFound);
    }
    reply := SaveAndCredit(store, k, user, Deposit, amount.value, 0, OrDefault(description, "Manual deposit"), DepositAdded, now, failing);
  }

  // ---- what the writes guarantee ----

  lemma RecordKeepsStored(d: Docs, k: nat, user: Id, kind: TxType, amount: Paise, roundup: Paise, description: string,
                          message: string, now: Timestamp, failing: set<MongoStep>)
    requires Stored(d) && k < |d.wallets|
    ensures Stored(Record(d, k, user, kind, amount, roundup, description, message, now, failing).after)
  {
  }

  /** On a stored wallet a non-negative credit always passes validation:
      with no store fault the transaction is saved and the wallet raised by
      exactly the amounts, other wallets untouched, and the reply's new
      balance is the one stored. A fault of the first save writes nothing;
      a fault of the second leaves the saved transaction behind. */
  lemma RecordOutcome(d: Docs, k: nat, user: Id, kind: TxType, amount: Paise, roundup: Paise, description: string,
                      message: string, now: Timestamp, failing: set<MongoStep>)
    requires Stored(d) && k < |d.wallets| && amount >= 0 && roundup >= 0
    ensures var e := Record(d, k, user, kind, amount, roundup, description, message, now, failing);
      && (TxSave in failing ==> e == Handled(Refused(500, ServerError), d))
      && (e.reply.Refused? <==> TxSave in failing || WalletSave in failing)
      && (TxSave !in failing ==>
            && |e.after.transactions| == |d.transactions| + 1
            && e.after.transactions[..|d.transactions|] == d.transactions
            && var tx := e.after.transactions[|d.transactions|];
            && tx.walletId == d.wallets[k].id && tx.userId == user && tx.txType == kind
            && tx.amount == amount && tx.status == Success && tx.description == Some(description))
      && (TxSave !in failing && WalletSave in failing ==> e.after.wallets == d.wallets)
      && (e.reply.Added? ==>
            && e.reply.message == message
            && e.reply.transaction == e.after.transactions[|d.transactions|]
            && |e.after.wallets| == |d.wallets|
            && e.after.wallets[k].id == d.wallets[k].id && e.after.wallets[k].userId == d.wallets[k].userId
            && e.after.wallets[k].balance == d.wallets[k].balance + amount
            && e.after.wallets[k].roundupTotal == d.wallets[k].roundupTotal + roundup
            && e.after.wallets[k].rewardsEarned == d.wallets[k].rewardsEarned
            && e.after.wallets[k].lastTransactionDate == now
            && e.reply.newBalance == e.after.wallets[k].balance
            && forall j :: 0 <= j < |d.wallets| && j != k ==> e.after.wallets[j] == d.wallets[j])
  {
    var e := Record(d, k, user, kind, amount, roundup, description, message, now, failing);
    if TxSave !in failing {
      assert e.after.transactions[..|d.transactions|] == d.transactions;
    }
  }

  /** A completed write keeps every wallet equal to the fold over its
      successful transaction documents, provided the wallet is raised by
      what the transaction's kind contributes. */
  lemma RecordKeepsConsistency(d: Docs, k: nat, user: Id, kind: TxType, amount: Paise, roundup: Paise, description: string,
                               message: string, now: Timestamp, failing: set<MongoStep>)
    requires Stored(d) && DocsConsistent(d) && k < |d.wallets| && amount >= 0 && roundup >= 0
    requires Delta(kind, amount) == Totals(amount, roundup)
    requires failing !! {TxSave, WalletSave}
    ensures DocsConsistent(Record(d, k, user, kind, amount, roundup, description, message, now, failing).after)
  {
    var e := Record(d, k, user, kind, amount, roundup, description, message, now, failing);
    var w := d.wallets[k];
    var tx := MongoTx(d.nextOid, w.id, user, None, kind, amount, Success, Some(description), now);
    assert e.after.transactions == d.transactions + [tx];
    forall j | 0 <= j < |e.after.wallets|
      ensures Totals(e.after.wallets[j].balance, e.after.wallets[j].roundupTotal) == DocReplay(e.after.transactions, e.after.wallets[j].id)
    {
      DocReplayAppend(d.transactions, tx, d.wallets[j].id);
      if j != k {
        assert d.wallets[j].id != w.id;
        PlusZero(DocReplay(d.transactions, d.wallets[j].id));
      }
    }
  }

  /** When the wallet save fails after the transaction was saved, the
      transaction counts in the fold but not in the wallet: the store is no
      longer consistent. */
  lemma HalfRecordBreaksConsistency(d: Docs, k: nat, user: Id, kind: TxType, amount: Paise, roundup: Paise, description: string,
                                    message: string, now: Timestamp, failing: set<MongoStep>)
    requires DocsConsistent(d) && k < |d.wallets| && Delta(kind, amount) != Zero
    requires TxSave !in failing && WalletSave in failing
    ensures !DocsConsistent(Record(d, k, user, kind, amount, roundup, description, message, now, failing).after)
  {
    var e := Record(d, k, user, kind, amount, roundup, description, message, now, failing);
    var w := d.wallets[k];
    var tx := MongoTx(d.nextOid, w.id, user, None, kind, amount, Success, Some(description), now);
    assert e.after.transactions == d.transactions + [tx];
    DocReplayAppend(d.transactions, tx, w.id);
    PlusMoves(DocReplay(d.transactions, w.id), Delta(kind, amount));
    assert e.after.wallets[k] == w;
  }

  /** POST /roundup: a missing wallet is a 404 with nothing written; the
      amount in the body makes no difference; with no store fault the
      wallet's balance and round-up total both rise by the same draw of 5.00
      to 9.99 rupees, under the default description when none is given. */
  lemma PostRoundUpOutcome(d: Docs, user: Id, amount: Paise, other: Paise, description: string, u: real, now: Timestamp, failing: set<MongoStep>)
    requires Stored(d) && 0.0 <= u < 1.0
    ensures var e := PostRoundUp(d, user, amount, description, u, now, failing);
      && e == PostRoundUp(d, user, other, description, u, now, failing)
      && Stored(e.after)
      && (Find !in failing && WalletOfUser(d.wallets, user) < 0 ==> e == Handled(Refused(404, WalletNotFound), d))
      && (StatusOf(e.reply) == 200 <==> failing !! {Find, TxSave, WalletSave} && WalletOfUser(d.wallets, user) >= 0)
      && (e.reply.Added? ==>
            var k := WalletOfUser(d.wallets, user);
            var r := e.reply.transaction.amount;
            && 500 <= r <= 999 && r == FlatRoundUp(u)
            && e.reply.transaction.txType == RoundUp
            && e.reply.transaction.description == Some(OrDefault(description, "Round-up from purchase"))
            && e.after.wallets[k].balance == d.wallets[k].balance + r
            && e.after.wallets[k].roundupTotal == d.wallets[k].roundupTotal + r
            && e.reply.newBalance == e.after.wallets[k].balance)
  {
    var k := WalletOfUser(d.wallets, user);
    if Find !in failing && k >= 0 {
      var r := FlatRoundUp(u);
      RecordOutcome(d, k, user, RoundUp, r, r, OrDefault(description, "Round-up from purchase"), RoundUpAdded, now, failing);
      RecordKeepsStored(d, k, user, RoundUp, r, r, OrDefault(description, "Round-up from purchase"), RoundUpAdded, now, failing);
    }
  }

  /** POST /deposit: an amount that is missing or not above zero is a 400
      whatever the state of the store; otherwise as for a round-up, except
      that only the balance rises, by exactly the amount, and the default
      description is "Manual deposit". */
  lemma PostDepositOutcome(d: Docs, user: Id, amount: Option<Paise>, description: string, now: Timestamp, failing: set<MongoStep>)
    requires Stored(d)
    ensures var e := PostDeposit(d, user, amount, description, now, failing);
      && Stored(e.after)
      && (amount.None? || amount.value <= 0 ==> e == Handled(Refused(400, InvalidAmount), d))
      && (amount.Some? && amount.value > 0 && Find !in failing && WalletOfUser(d.wallets, user) < 0 ==>
            e == Handled(Refused(404, WalletNotFound), d))
      && (StatusOf(e.reply) == 200 <==>
            amount.Some? && amount.value > 0 && failing !! {Find, TxSave, WalletSave} && WalletOfUser(d.wallets, user) >= 0)
      && (e.reply.Added? ==>
            var k := WalletOfUser(d.wallets, user);
            && e.reply.transaction.txType == Deposit && e.reply.transaction.amount == amount.value
            && e.reply.transaction.description == Some(OrDefault(description, "Manual deposit"))
            && e.after.wallets[k].balance == d.wallets[k].balance + amount.value
            && e.after.wallets[k].roundupTotal == d.wallets[k].roundupTotal
            && e.reply.newBalance == e.after.wallets[k].balance)
  {
    var k := WalletOfUser(d.wallets, user);
    if amount.Some? && amount.value > 0 && Find !in failing && k >= 0 {
      RecordOutcome(d, k, user, Deposit, amount.value, 0, OrDefault(description, "Manual deposit"), DepositAdded, now, failing);
      RecordKeepsStored(d, k, user, Deposit, amount.value, 0, OrDefault(description, "Manual deposit"), DepositAdded, now, failing);
    }
  }

  /** Both writes keep the store consistent when they complete or write
      nothing, and break it when the wallet save alone fails. */
  lemma WritesAndConsistency(d: Docs, user: Id, amount: Paise, deposit: Option<Paise>, description: string, u: real, now: Timestamp, failing: set<MongoStep>)
    requires Stored(d) && DocsConsistent(d) && 0.0 <= u < 1.0
    ensures var e := PostRoundUp(d, user, amount, description, u, now, failing);
      (e.reply.Added? || TxSave in failing || Find in failing || WalletOfUser(d.wallets, user) < 0 ==> DocsConsistent(e.after))
      && (WalletSave in failing && e.after != d ==> !DocsConsistent(e.after))
    ensures var e := PostDeposit(d, user, deposit, description, now, failing);
      (e.reply.Added? || e.after == d ==> DocsConsistent(e.after))
      && (WalletSave in failing && e.after != d ==> !DocsConsistent(e.after))
  {
    var k := WalletOfUser(d.wallets, user);
    if Find !in failing && k >= 0 {
      var r := FlatRoundUp(u);
      var rd := OrDefault(description, "Round-up from purchase");
      if failing !! {TxSave, WalletSave} {
        RecordKeepsConsistency(d, k, user, RoundUp, r, r, rd, RoundUpAdded, now, failing);
      } else if TxSave !in failing {
        HalfRecordBreaksConsistency(d, k, user, RoundUp, r, r, rd, RoundUpAdded, now, failing);
      }
      if deposit.Some? && deposit.value > 0 {
        var dd := OrDefault(description, "Manual deposit");
        if failing !! {TxSave, WalletSave} {
          RecordKeepsConsistency(d, k, user, Deposit, deposit.value, 0, dd, DepositAdded, now, failing);
        } else if TxSave !in failing {
          HalfRecordBreaksConsistency(d, k, user, Deposit, deposit.value, 0, dd, DepositAdded, now, failing);
        }
      }
    }
  }
}
