/** The client library of src/lib/wallet.ts over the primary store: read
    the signed-in user's wallet with its transactions, simulate a round-up
    of a random 5.00 to 9.99 rupees, and record a manual deposit.

    Each write path reads the wallet, inserts a transaction row and then
    rewrites the wallet's aggregates; an error of that last write is only
    logged, and the inserted row is returned all the same. The rows it
    inserts carry no user_id and take the store's default status. */
module WalletClient {
  import opened Common
  import opened WalletTypes
  import opened Ledger
  import opened Supabase
  import opened RoundUp
  import Seqs

  /** A wallet row with its transactions attached (`{...data, transactions}`). */
  function WithTransactions(w: WalletRow, txs: seq<Transaction>): Wallet {
    Wallet(w.id, w.userId, w.balance, w.roundupTotal, w.rewardsEarned, w.lastTransactionDate, txs)
  }

  /** fetchWallet: the user's wallet by `.single()`, then its rows newest
      first; a failed wallet read gives null, a failed listing an empty list. */
  method FetchWallet(db: Db, user: Option<Id>, failing: set<Step>) returns (r: Outcome<Option<Wallet>>)
    ensures user.None? ==> r == Threw(NotAuthenticated)
    ensures r.Returned? <==> user.Some?
    ensures r.Returned? ==> (r.value.Some? <==> WalletLookup !in failing && UserWallet(db.wallets, user.value).Some?)
    ensures r.Returned? && r.value.Some? ==>
      var w := UserWallet(db.wallets, user.value).value;
      var got := r.value.value;
      && got == WithTransactions(w, got.transactions)
      && (TxList in failing ==> got.transactions == [])
      && (TxList !in failing ==>
            && Seqs.SortedDesc(got.transactions, CreatedAt)
            && multiset(got.transactions) == multiset(TxsOfWallet(db.transactions, w.id))
            && forall k :: 0 <= k < |got.transactions| ==>
                 got.transactions[k].walletId == w.id && got.transactions[k] in db.transactions)
  {
    if user.None? {
      return Threw(NotAuthenticated);
    }
    var found := UserWallet(db.wallets, user.value);
    if WalletLookup in failing || found.None? {
      return Returned(None);
    }
    var w := found.value;
    var txs: seq<Transaction> := [];
    if TxList !in failing {
      var mine := TxsOfWallet(db.transactions, w.id);
      TxsOfWalletRows(db.transactions, w.id);
      txs := Seqs.SortDesc(mine, CreatedAt);
      forall k | 0 <= k < |txs|
        ensures txs[k].walletId == w.id && txs[k] in db.transactions
      {
        assert txs[k] in multiset(mine);
      }
    }
    return Returned(Some(WithTransactions(w, txs)));
  }

  /** The round-up row the client inserts: no user_id, default status. */
  function RoundUpRow(id: Id, w: WalletRow, r: Paise, description: string, now: Timestamp): Transaction {
    Transaction(id, RoundUp, r, DefaultStatus, description, now, w.id, None)
  }

  /** The tail both round-up simulations share: insert a round-up row of r
      for wallet w (null on an insert error), then add r to the wallet's
      balance and round-up total, ignoring an error of that write. */
  function CreditRoundUp(s: Store, w: WalletRow, r: Paise, description: string, now: Timestamp, failing: set<Step>): Effect<Option<Transaction>> {
    if TxInsert in failing then Effect(Returned(None), s)
    else
      var row := RoundUpRow(s.nextId, w, r, description, now);
      var inserted := s.(transactions := s.transactions + [row], nextId := s.nextId + 1);
      if BalanceUpdate in failing then Effect(Returned(Some(row)), inserted)
      else Effect(Returned(Some(row)), inserted.(wallets := SetTotals(s.wallets, w.id, Totals(w.balance + r, w.roundupTotal + r), now)))
  }

  /** simulateRoundUp: the wallet by `.maybeSingle()` (none, or a read
      error, gives null), then a flat round-up drawn from u. The purchase
      amount is not used. */
  function SimulateRoundUp(s: Store, user: Option<Id>, amount: Paise, description: string, u: real, now: Timestamp, failing: set<Step>): Effect<Option<Transaction>>
    requires 0.0 <= u < 1.0
  {
    if user.None? then Effect(Threw(NotAuthenticated), s)
    else
      var found := MaybeSingle(WalletsOfUser(s.wallets, user.value));
      if WalletLookup in failing || !found.OneRow? then Effect(Returned(None), s)
      else CreditRoundUp(s, found.row, FlatRoundUp(u), description, now, failing)
  }

  /** The deposit row addDeposit inserts: "Manual deposit" when no
      description is given. */
  function DepositRow(id: Id, w: WalletRow, amount: Paise, description: string, now: Timestamp): Transaction {
    Transaction(id, Deposit, amount, DefaultStatus, OrDefault(description, "Manual deposit"), now, w.id, None)
  }

  /** Insert the deposit row (null on an insert error), then raise the
      wallet's balance alone by amount, ignoring an error of that write. */
  function CreditDeposit(s: Store, w: WalletRow, amount: Paise, description: string, now: Timestamp, failing: set<Step>): Effect<Option<Transaction>> {
    if TxInsert in failing then Effect(Returned(None), s)
    else
      var row := DepositRow(s.nextId, w, amount, description, now);
      var inserted := s.(transactions := s.transactions + [row], nextId := s.nextId + 1);
      if BalanceUpdate in failing then Effect(Returned(Some(row)), inserted)
      else Effect(Returned(Some(row)), inserted.(wallets := SetBalance(s.wallets, w.id, w.balance + amount, now)))
  }

  /** addDeposit: the wallet by `.maybeSingle()`, then the deposit. */
  function AddDeposit(s: Store, user: Option<Id>, amount: Paise, description: string, now: Timestamp, failing: set<Step>): Effect<Option<Transaction>> {
    if user.None? then Effect(Threw(NotAuthenticated), s)
    else
      var found := MaybeSingle(WalletsOfUser(s.wallets, user.value));
      if WalletLookup in failing || !found.OneRow? then Effect(Returned(None), s)
      else CreditDeposit(s, found.row, amount, description, now, failing)
  }

  // ---- the handlers as methods on the store object ----

  method InsertRoundUp(db: Db, w: WalletRow, r: Paise, description: string, now: Timestamp, failing: set<Step>)
    returns (res: Outcome<Option<Transaction>>)
    modifies db
    ensures var e := CreditRoundUp(old(db.Snapshot()), w, r, description, now, failing);
      res == e.out && db.Snapshot() == e.after
  {
    if TxInsert in failing {
      return Returned(None);
    }
    var before := db.wallets;
    var id := db.FreshId();
    var row := RoundUpRow(id, w, r, description, now);
    db.transactions := db.transactions + [row];
    if BalanceUpdate !in failing {
      db.wallets := SetTotals(before, w.id, Totals(w.balance + r, w.roundupTotal + r), now);
    }
    return Returned(Some(row));
  }

  method SimulateRoundUpFlat(db: Db, user: Option<Id>, amount: Paise, description: string, u: real, now: Timestamp, failing: set<Step>)
    returns (res: Outcome<Option<Transaction>>)
    requires 0.0 <= u < 1.0
    requires db.Valid()
    modifies db
    ensures db.Valid()
    ensures var e := SimulateRoundUp(old(db.Snapshot()), user, amount, description, u, now, failing);
      res == e.out && db.Snapshot() == e.after
  {
    SimulateRoundUpKeepsWellFormed(db.Snapshot(), user, amount, description, u, now, failing);
    if user.None? {
      return Threw(NotAuthenticated);
    }
    var found := MaybeSingle(WalletsOfUser(db.wallets, user.value));
    if WalletLookup in failing || !found.OneRow? {
      return Returned(None);
    }
    res := InsertRoundUp(db, found.row, FlatRoundUp(u), description, now, failing);
  }

  method AddManualDeposit(db: Db, user: Option<Id>, amount: Paise, description: string, now: Timestamp, failing: set<Step>)
    returns (res: Outcome<Option<Transaction>>)
    requires db.Valid()
    modifies db
    ensures db.Valid()
    ensures var e := AddDeposit(old(db.Snapshot()), user, amount, description, now, failing);
      res == e.out && db.Snapshot() == e.after
  {
    AddDepositKeepsWellFormed(db.Snapshot(), user, amount, description, now, failing);
    if user.None? {
      return Threw(NotAuthenticated);
    }
    var found := MaybeSingle(WalletsOfUser(db.wallets, user.value));
    if WalletLookup in failing || !found.OneRow? {
      return Returned(None);
    }
    res := InsertDeposit(db, found.row, amount, description, now, failing);
  }

  method InsertDeposit(db: Db, w: WalletRow, amount: Paise, description: string, now: Timestamp, failing: set<Step>)
    returns (res: Outcome<Option<Transaction>>)
    modifies db
    ensures var e := CreditDeposit(old(db.Snapshot()), w, amount, description, now, failing);
      res == e.out && db.Snapshot() == e.after
  {
    if TxInsert in failing {
      return Returned(None);
    }
    var before := db.wallets;
    var id := db.FreshId();
    var row := DepositRow(id, w, amount, description, now);
    db.transactions := db.transactions + [row];
    if BalanceUpdate !in failing {
      db.wallets := SetBalance(before, w.id, w.balance + amount, now);
    }
    return Returned(Some(row));
  }

  // ---- well-formedness ----

  lemma CreditRoundUpKeepsWellFormed(s: Store, k: nat, r: Paise, description: string, now: Timestamp, failing: set<Step>)
    requires WellFormed(s) && k < |s.wallets|
    ensures WellFormed(CreditRoundUp(s, s.wallets[k], r, description, now, failing).after)
  {
    var w := s.wallets[k];
    if TxInsert !in failing {
      var row := RoundUpRow(s.nextId, w, r, description, now);
      var inserted := s.(transactions := s.transactions + [row], nextId := s.nextId + 1);
      assert row.walletId < s.nextId by {
        assert w == s.wallets[k];
      }
      InsertTxKeepsWellFormed(s, row);
      if BalanceUpdate !in failing {
        SetTotalsKeepsWellFormed(inserted, w.id, Totals(w.balance + r, w.roundupTotal + r), now);
      }
    }
  }

  lemma SimulateRoundUpKeepsWellFormed(s: Store, user: Option<Id>, amount: Paise, description: string, u: real, now: Timestamp, failing: set<Step>)
    requires 0.0 <= u < 1.0 && WellFormed(s)
    ensures WellFormed(SimulateRoundUp(s, user, amount, description, u, now, failing).after)
  {
    if user.Some? && WalletLookup !in failing && MaybeSingle(WalletsOfUser(s.wallets, user.value)).OneRow? {
      var k := MaybeSingleWalletIsRow(s.wallets, user.value);
      CreditRoundUpKeepsWellFormed(s, k, FlatRoundUp(u), description, now, failing);
    }
  }

  lemma CreditDepositKeepsWellFormed(s: Store, k: nat, amount: Paise, description: string, now: Timestamp, failing: set<Step>)
    requires WellFormed(s) && k < |s.wallets|
    ensures WellFormed(CreditDeposit(s, s.wallets[k], amount, description, now, failing).after)
  {
    var w := s.wallets[k];
    if TxInsert !in failing {
      var row := DepositRow(s.nextId, w, amount, description, now);
      var inserted := s.(transactions := s.transactions + [row], nextId := s.nextId + 1);
      InsertTxKeepsWellFormed(s, row);
      SetBalanceIsSetTotals(s.wallets, k, w.balance + amount, now);
      SetTotalsKeepsWellFormed(inserted, w.id, Totals(w.balance + amount, w.roundupTotal), now);
    }
  }

  lemma AddDepositKeepsWellFormed(s: Store, user: Option<Id>, amount: Paise, description: string, now: Timestamp, failing: set<Step>)
    requires WellFormed(s)
    ensures WellFormed(AddDeposit(s, user, amount, description, now, failing).after)
  {
    if user.Some? && WalletLookup !in failing && MaybeSingle(WalletsOfUser(s.wallets, user.value)).OneRow? {
      var k := MaybeSingleWalletIsRow(s.wallets, user.value);
      CreditDepositKeepsWellFormed(s, k, amount, description, now, failing);
    }
  }

  // ---- what the client guarantees ----

  /** The shared tail inserts nothing on an insert error. Otherwise it
      appends exactly one successful round-up row of r for wallet w and
      returns it; unless the wallet write fails, that wallet's balance and
      round-up total each grow by r and no other wallet changes. */
  lemma CreditRoundUpOutcome(s: Store, k: nat, r: Paise, description: string, now: Timestamp, failing: set<Step>)
    requires DistinctWalletIds(s.wallets) && k < |s.wallets|
    ensures var w := s.wallets[k];
      var e := CreditRoundUp(s, w, r, description, now, failing);
      && e.out.Returned?
      && (TxInsert in failing ==> e == Effect(Returned(None), s))
      && (TxInsert !in failing ==>
            && e.out.value.Some?
            && var row := e.out.value.value;
            && row.txType == RoundUp && row.amount == r && Succeeded(row) && row.walletId == w.id
            && e.after.transactions == s.transactions + [row]
            && e.after.paymentIntents == s.paymentIntents && e.after.eduScores == s.eduScores
            && (BalanceUpdate in failing ==> e.after.wallets == s.wallets)
            && (BalanceUpdate !in failing ==>
                  && |e.after.wallets| == |s.wallets|
                  && TotalsOf(e.after.wallets[k]) == Plus(TotalsOf(w), Totals(r, r))
                  && e.after.wallets[k].rewardsEarned == w.rewardsEarned
                  && forall j :: 0 <= j < |s.wallets| && j != k ==> e.after.wallets[j] == s.wallets[j]))
  {
    var w := s.wallets[k];
    forall j | 0 <= j < |s.wallets| && j != k
      ensures s.wallets[j].id != w.id
    {
    }
  }

  /** With no store error, the round-up keeps every wallet equal to the fold
      of its successful rows. */
  lemma CreditRoundUpKeepsConsistency(s: Store, k: nat, r: Paise, description: string, now: Timestamp, failing: set<Step>)
    requires DistinctWalletIds(s.wallets) && k < |s.wallets| && Consistent(s.wallets, s.transactions)
    requires TxInsert !in failing && BalanceUpdate !in failing
    ensures var e := CreditRoundUp(s, s.wallets[k], r, description, now, failing);
      Consistent(e.after.wallets, e.after.transactions)
  {
    var w := s.wallets[k];
    var row := RoundUpRow(s.nextId, w, r, description, now);
    var e := CreditRoundUp(s, w, r, description, now, failing);
    var t := Plus(Replay(s.transactions, w.id), Contribution(row, w.id));
    assert TotalsOf(w) == Replay(s.transactions, w.id);
    assert Contribution(row, w.id) == Totals(r, r);
    assert t == Totals(w.balance + r, w.roundupTotal + r);
    assert e.after.wallets == SetTotals(s.wallets, w.id, t, now);
    assert e.after.transactions == s.transactions + [row];
    CreditPreservesConsistency(s.wallets, s.transactions, row, now);
  }

  /** A failing wallet write after the insert is only logged: the row is
      still returned, but a non-zero round-up then leaves the wallet behind
      its fold. */
  lemma CreditRoundUpLoggedFailureBreaksConsistency(s: Store, k: nat, r: Paise, description: string, now: Timestamp, failing: set<Step>)
    requires k < |s.wallets| && Consistent(s.wallets, s.transactions)
    requires TxInsert !in failing && BalanceUpdate in failing && r != 0
    ensures var e := CreditRoundUp(s, s.wallets[k], r, description, now, failing);
      e.out.Returned? && e.out.value.Some? && !Consistent(e.after.wallets, e.after.transactions)
  {
    var w := s.wallets[k];
    var row := RoundUpRow(s.nextId, w, r, description, now);
    ReplayAppend(s.transactions, row, w.id);
    assert Contribution(row, w.id) == Totals(r, r);
    PlusMoves(Replay(s.transactions, w.id), Totals(r, r));
    assert TotalsOf(w) != Replay(s.transactions + [row], w.id);
  }

  /** simulateRoundUp throws only when signed out, returns null with nothing
      written when the wallet read fails or finds no single wallet, and
      otherwise credits the user's wallet with a flat round-up in 5.00 to
      9.99 rupees, whatever the purchase amount was. */
  lemma SimulateRoundUpOutcome(s: Store, user: Option<Id>, amount: Paise, description: string, u: real, now: Timestamp, failing: set<Step>)
    requires 0.0 <= u < 1.0
    ensures var e := SimulateRoundUp(s, user, amount, description, u, now, failing);
      && (user.None? ==> e == Effect(Threw(NotAuthenticated), s))
      && (user.Some? ==> e.out.Returned?)
      && (user.Some? && (WalletLookup in failing || !MaybeSingle(WalletsOfUser(s.wallets, user.value)).OneRow?) ==>
            e == Effect(Returned(None), s))
      && (e.out.Returned? && e.out.value.Some? ==>
            && 500 <= e.out.value.value.amount <= 999
            && e.out.value.value.txType == RoundUp
            && e.out.value.value.walletId == UserWallet(s.wallets, user.value).value.id)
      && e == SimulateRoundUp(s, user, 0, description, u, now, failing)
  {
    if user.Some? && WalletLookup !in failing && MaybeSingle(WalletsOfUser(s.wallets, user.value)).OneRow? {
      var k := MaybeSingleWalletIsRow(s.wallets, user.value);
    }
  }

  /** With no store error, a simulated round-up keeps the store consistent. */
  lemma SimulateRoundUpKeepsConsistency(s: Store, user: Option<Id>, amount: Paise, description: string, u: real, now: Timestamp, failing: set<Step>)
    requires 0.0 <= u < 1.0 && DistinctWalletIds(s.wallets) && Consistent(s.wallets, s.transactions)
    requires TxInsert !in failing && BalanceUpdate !in failing
    ensures Consistent(SimulateRoundUp(s, user, amount, description, u, now, failing).after.wallets,
                       SimulateRoundUp(s, user, amount, description, u, now, failing).after.transactions)
  {
    if user.Some? && WalletLookup !in failing && MaybeSingle(WalletsOfUser(s.wallets, user.value)).OneRow? {
      var k := MaybeSingleWalletIsRow(s.wallets, user.value);
      CreditRoundUpKeepsConsistency(s, k, FlatRoundUp(u), description, now, failing);
    }
  }

  /** The deposit inserts nothing on an insert error. Otherwise it appends
      exactly one successful deposit row of amount (described "Manual
      deposit" when no description is given) and returns it; unless the
      wallet write fails, that wallet's balance grows by amount, its
      round-up total stays, and no other wallet changes. */
  lemma CreditDepositOutcome(s: Store, k: nat, amount: Paise, description: string, now: Timestamp, failing: set<Step>)
    requires DistinctWalletIds(s.wallets) && k < |s.wallets|
    ensures var w := s.wallets[k];
      var e := CreditDeposit(s, w, amount, description, now, failing);
      && e.out.Returned?
      && (TxInsert in failing ==> e == Effect(Returned(None), s))
      && (TxInsert !in failing ==>
            && e.out.value.Some?
            && var row := e.out.value.value;
            && row.txType == Deposit && row.amount == amount && Succeeded(row) && row.walletId == w.id
            && (description == "" ==> row.description == "Manual deposit")
            && e.after.transactions == s.transactions + [row]
            && e.after.paymentIntents == s.paymentIntents && e.after.eduScores == s.eduScores
            && (BalanceUpdate in failing ==> e.after.wallets == s.wallets)
            && (BalanceUpdate !in failing ==>
                  e.after.wallets == SetTotals(s.wallets, w.id, Plus(TotalsOf(w), Totals(amount, 0)), now)))
  {
    SetBalanceIsSetTotals(s.wallets, k, s.wallets[k].balance + amount, now);
  }

  /** addDeposit throws only when signed out, returns null with nothing
      written when the wallet read fails or finds no single wallet, and
      otherwise makes the deposit into the user's wallet. */
  lemma AddDepositOutcome(s: Store, user: Option<Id>, amount: Paise, description: string, now: Timestamp, failing: set<Step>)
    ensures var e := AddDeposit(s, user, amount, description, now, failing);
      && (user.None? ==> e == Effect(Threw(NotAuthenticated), s))
      && (user.Some? && (WalletLookup in failing || !MaybeSingle(WalletsOfUser(s.wallets, user.value)).OneRow?) ==>
            e == Effect(Returned(None), s))
      && (user.Some? && WalletLookup !in failing && MaybeSingle(WalletsOfUser(s.wallets, user.value)).OneRow? ==>
            e == CreditDeposit(s, UserWallet(s.wallets, user.value).value, amount, description, now, failing))
  {
    if user.Some? && WalletLookup !in failing && MaybeSingle(WalletsOfUser(s.wallets, user.value)).OneRow? {
      var k := MaybeSingleWalletIsRow(s.wallets, user.value);
    }
  }

  /** With no store error, a deposit keeps every wallet equal to the fold of
      its successful rows. */
  lemma CreditDepositKeepsConsistency(s: Store, k: nat, amount: Paise, description: string, now: Timestamp, failing: set<Step>)
    requires DistinctWalletIds(s.wallets) && k < |s.wallets| && Consistent(s.wallets, s.transactions)
    requires TxInsert !in failing && BalanceUpdate !in failing
    ensures var e := CreditDeposit(s, s.wallets[k], amount, description, now, failing);
      Consistent(e.after.wallets, e.after.transactions)
  {
    var w := s.wallets[k];
    var row := DepositRow(s.nextId, w, amount, description, now);
    var e := CreditDeposit(s, w, amount, description, now, failing);
    CreditDepositOutcome(s, k, amount, description, now, failing);
    var t := Plus(Replay(s.transactions, w.id), Contribution(row, w.id));
    assert TotalsOf(w) == Replay(s.transactions, w.id);
    assert Contribution(row, w.id) == Totals(amount, 0);
    assert t == Plus(TotalsOf(w), Totals(amount, 0));
    assert e.after.wallets == SetTotals(s.wallets, w.id, t, now);
    CreditPreservesConsistency(s.wallets, s.transactions, row, now);
  }
}
