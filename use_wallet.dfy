/** addRoundUp of the wallet hook (src/hooks/useWallet.tsx): after the
    ceiling round-up of src/lib/api.ts returns a transaction, the hook
    builds the new local wallet from the old one and the transaction,
    without reading the store again. */
module UseWallet {
  import opened Common
  import opened WalletTypes
  import opened Ledger
  import opened Supabase
  import opened RoundUp
  import WalletClient
  import ApiClient

  /** The hook's wallet state after the call, and what the call returns. */
  datatype HookResult = HookResult(wallet: Option<Wallet>, returned: Option<Transaction>)

  /** The optimistic update: with a returned transaction and a loaded
      wallet, both aggregates grow by the transaction's amount, the date
      becomes its creation time and it goes in front of the list. A null
      result, a null wallet or a thrown error leave the state alone and
      return null. */
  function AddRoundUp(wallet: Option<Wallet>, result: Outcome<Option<Transaction>>): HookResult {
    if result.Returned? && result.value.Some? && wallet.Some? then
      var w, t := wallet.value, result.value.value;
      HookResult(
        Some(w.(balance := w.balance + t.amount,
                roundupTotal := w.roundupTotal + t.amount,
                lastTransactionDate := t.createdAt,
                transactions := [t] + w.transactions)),
        Some(t))
    else HookResult(wallet, None)
  }

  /** The state changes exactly when a transaction came back and a wallet
      was loaded; then the aggregates move by its amount, the new
      transaction is first and the old ones follow in their order, and every
      other field is carried over. */
  lemma AddRoundUpState(wallet: Option<Wallet>, result: Outcome<Option<Transaction>>)
    ensures var h := AddRoundUp(wallet, result);
      && (h.returned.Some? <==> result.Returned? && result.value.Some? && wallet.Some?)
      && (h.returned.None? ==> h.wallet == wallet)
      && (h.returned.Some? ==>
            var w, t, w' := wallet.value, h.returned.value, h.wallet.value;
            && t == result.value.value
            && w'.balance == w.balance + t.amount
            && w'.roundupTotal == w.roundupTotal + t.amount
            && w'.lastTransactionDate == t.createdAt
            && |w'.transactions| == |w.transactions| + 1
            && w'.transactions[0] == t && w'.transactions[1..] == w.transactions
            && w'.id == w.id && w'.userId == w.userId && w'.rewardsEarned == w.rewardsEarned)
  {
    var h := AddRoundUp(wallet, result);
    if h.returned.Some? {
      assert h.wallet.value.transactions[1..] == wallet.value.transactions;
    }
  }

  /** When the local wallet agrees with the stored one and the ceiling
      round-up goes through without a store error, the optimistic state
      agrees with the stored wallet afterwards: same balance, round-up total
      and last transaction date. */
  lemma OptimisticMatchesStore(s: Store, user: Option<Id>, amount: Paise, description: string, now: Timestamp, failing: set<Step>, local: Wallet)
    requires DistinctWalletIds(s.wallets)
    requires user.Some? && UserWallet(s.wallets, user.value).Some?
    requires WalletLookup !in failing && TxInsert !in failing && BalanceUpdate !in failing
    requires var w := UserWallet(s.wallets, user.value).value;
      local.id == w.id && local.balance == w.balance && local.roundupTotal == w.roundupTotal
    ensures var e := ApiClient.SimulateRoundUp(s, user, amount, description, now, failing);
      var h := AddRoundUp(Some(local), e.out);
      && h.wallet.Some? && WalletById(e.after.wallets, local.id).Some?
      && var stored := WalletById(e.after.wallets, local.id).value;
      && h.wallet.value.balance == stored.balance
      && h.wallet.value.roundupTotal == stored.roundupTotal
      && h.wallet.value.lastTransactionDate == stored.lastTransactionDate
  {
    var k := UserWalletIsRow(s.wallets, user.value);
    var w := s.wallets[k];
    var r := CeilingRoundUp(amount);
    WalletClient.CreditRoundUpOutcome(s, k, r, description, now, failing);
    var e := ApiClient.SimulateRoundUp(s, user, amount, description, now, failing);
    assert e == WalletClient.CreditRoundUp(s, w, r, description, now, failing);
    var ws' := e.after.wallets;
    assert ws' == SetTotals(s.wallets, w.id, Totals(w.balance + r, w.roundupTotal + r), now);
    assert forall j :: 0 <= j < |ws'| ==> ws'[j].id == s.wallets[j].id;
    WalletByIdFinds(ws', k);
  }
}
