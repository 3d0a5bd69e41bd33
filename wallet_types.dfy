/** The client-side record types of src/types/wallet.ts, which are also the
    shape of the rows of the primary store's `transactions` table.

    - Transaction.txType is exactly one of the four kinds, while
      Transaction.status is an unconstrained string (the document schema of
      the secondary store, by contrast, restricts it to three values).
    - walletId is required, userId optional.
    - A Wallet carries its three aggregates beside its transaction list. */
module WalletTypes {
  import opened Common

  datatype Transaction = Transaction(
    id: Id,
    txType: TxType,
    amount: Paise,
    status: string,
    description: string,
    createdAt: Timestamp,
    walletId: Id,
    userId: Option<Id>)

  datatype Wallet = Wallet(
    id: Id,
    userId: Id,
    balance: Paise,
    roundupTotal: Paise,
    rewardsEarned: Paise,
    lastTransactionDate: Timestamp,
    transactions: seq<Transaction>)

  /** The ordering key of `.order('created_at', { ascending: false })`. */
  function CreatedAt(t: Transaction): int {
    t.createdAt
  }
}
