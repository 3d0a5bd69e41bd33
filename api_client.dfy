/** simulateRoundUp of src/lib/api.ts, the round-up the wallet hook uses:
    the purchase is rounded up to the next whole rupee and the change is
    saved. The wallet is read with `.single()`; the result of the final
    wallet write is not looked at. */
module ApiClient {
  import opened Common
  import opened WalletTypes
  import opened Ledger
  import opened Supabase
  import opened RoundUp
  import opened WalletClient

  function SimulateRoundUp(s: Store, user: Option<Id>, amount: Paise, description: string, now: Timestamp, failing: set<Step>): Effect<Option<Transaction>> {
    if user.None? then Effect(Threw(NotAuthenticated), s)
    else
      var found := UserWallet(s.wallets, user.value);
      if WalletLookup in failing || found.None? then Effect(Returned(None), s)
      else CreditRoundUp(s, found.value, CeilingRoundUp(amount), description, now, failing)
  }

  method SimulateRoundUpCeiling(db: Db, user: Option<Id>, amount: Paise, description: string, now: Timestamp, failing: set<Step>)
    returns (res: Outcome<Option<Transaction>>)
    requires db.Valid()
    modifies db
    ensures db.Valid()
    ensures var e := SimulateRoundUp(old(db.Snapshot()), user, amount, description, now, failing);
      res == e.out && db.Snapshot() == e.after
  {
    SimulateRoundUpKeepsWellFormed(db.Snapshot(), user, amount, description, now, failing);
    if user.None? {
      return Threw(NotAuthenticated);
    }
    var found := UserWallet(db.wallets, user.value);
    if WalletLookup in failing || found.None? {
      return Returned(None);
    }
    res := InsertRoundUp(db, found.value, CeilingRoundUp(amount), description, now, failing);
  }

  lemma SimulateRoundUpKeepsWellFormed(s: Store, user: Option<Id>, amount: Paise, description: string, now: Timestamp, failing: set<Step>)
    requires WellFormed(s)
    ensures WellFormed(SimulateRoundUp(s, user, amount, description, now, failing).after)
  {
    if user.Some? && WalletLookup !in failing && UserWallet(s.wallets, user.value).Some? {
      var k := UserWalletIsRow(s.wallets, user.value);
      CreditRoundUpKeepsWellFormed(s, k, CeilingRoundUp(amount), description, now, failing);
    }
  }

  /** An unauthenticated call throws; a failed or empty wallet read, or an
      insert error, returns null and writes nothing; otherwise the change to
      the next whole rupee, in [0, 1) rupee, is saved as a round-up of the
      user's wallet. */
  lemma SimulateRoundUpOutcome(s: Store, user: Option<Id>, amount: Paise, description: string, now: Timestamp, failing: set<Step>)
    ensures var e := SimulateRoundUp(s, user, amount, description, now, failing);
      && (user.None? ==> e == Effect(Threw(NotAuthenticated), s))
      && (user.Some? ==> e.out.Returned?)
      && (user.Some? && (WalletLookup in failing || UserWallet(s.wallets, user.value).None? || TxInsert in failing) ==>
            e == Effect(Returned(None), s))
      && (e.out.Returned? && e.out.value.Some? ==>
            var row := e.out.value.value;
            && 0 <= row.amount < 100 && (amount + row.amount) % 100 == 0
            && row.txType == RoundUp
            && row.walletId == UserWallet(s.wallets, user.value).value.id)
  {
  }

  /** A whole-rupee purchase has nothing to round up, yet a round-up row of
      zero is still inserted and returned. */
  lemma WholeRupeeStillInserts(s: Store, user: Option<Id>, amount: Paise, description: string, now: Timestamp, failing: set<Step>)
    requires amount % 100 == 0 && user.Some?
    requires WalletLookup !in failing && TxInsert !in failing && UserWallet(s.wallets, user.value).Some?
    ensures var e := SimulateRoundUp(s, user, amount, description, now, failing);
      && e.out.Returned? && e.out.value.Some? && e.out.value.value.amount == 0
      && e.after.transactions == s.transactions + [e.out.value.value]
  {
  }

  /** With no store error, the ceiling round-up keeps the store consistent;
      an unchecked failing wallet write after a non-zero round-up breaks it. */
  lemma SimulateRoundUpConsistency(s: Store, user: Option<Id>, amount: Paise, description: string, now: Timestamp, failing: set<Step>)
    requires DistinctWalletIds(s.wallets) && Consistent(s.wallets, s.transactions)
    requires user.Some? && WalletLookup !in failing && UserWallet(s.wallets, user.value).Some? && TxInsert !in failing
    ensures var e := SimulateRoundUp(s, user, amount, description, now, failing);
      && (BalanceUpdate !in failing ==> Consistent(e.after.wallets, e.after.transactions))
      && (BalanceUpdate in failing && amount % 100 != 0 ==> !Consistent(e.after.wallets, e.after.transactions))
  {
    var k := UserWalletIsRow(s.wallets, user.value);
    if BalanceUpdate !in failing {
      CreditRoundUpKeepsConsistency(s, k, CeilingRoundUp(amount), description, now, failing);
    } else if amount % 100 != 0 {
      CreditRoundUpLoggedFailureBreaksConsistency(s, k, CeilingRoundUp(amount), description, now, failing);
    }
  }
}
