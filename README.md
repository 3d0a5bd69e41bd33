# Round-up savings wallet: a verified model of the ledger core

The system is a micro-savings wallet. Purchases are rounded up and the
change is saved, deposits are added, and learning lessons earn points. The
model covers the parts of it that move money and scores:

- **The primary store** (Postgres behind the Supabase client). It has the
  `wallets`, `transactions`, `payment_transactions` (the payment intents)
  and `edu_scores` tables.
  - The client CRUD of `src/lib/walletCrud.ts` creates, lists, edits and
    deletes transaction rows. Creating applies a transaction's effect to
    the wallet's aggregates; deleting a successful row applies the reverse.
  - The client libraries `src/lib/wallet.ts` and `src/lib/api.ts` record
    round-ups and deposits.
  - The wallet hook `src/hooks/useWallet.tsx` updates its local wallet
    optimistically.
  - The learning-score hook `src/hooks/useEduScore.ts` completes and
    retakes lessons.
- **The two round-up strategies**, modelled on integer paise:
  - the ceiling strategy `ceil(a) − a`;
  - the flat random strategy of 5.00 to 9.99 rupees. Its `Math.random()`
    draw is a parameter.
- **The payment flow.** The round-up form builds a payment request. The
  `razorpay-payment` edge function validates it, opens a gateway order and
  records a `CREATED` intent. The `razorpay-webhook` edge function checks
  the delivery's signature and marks the intent `SUCCESS`. For a captured
  payment it then credits the payer's wallet, creating the wallet first
  when the payer has none, and appends the transaction.
- **The document store in its camelCase shape** (`backend/models`). Its
  routes are `backend/routes/wallet.js` and `backend/routes/eduScore.js`.
  The model keeps the schemas' defaults, enums, `min: 0` bounds and the
  pre-save hook.
- **The document store in its snake_case mirror shape.** It covers:
  - the wallet routes of `backend/routes/walletRoutes.js`, which append to
    a wallet's embedded transaction array and move its aggregates in place;
  - the learning-score routes of `backend/routes/eduScoreRoutes.js`;
  - the change-event applier of `backend/routes/webhookRoutes.js`, which
    copies primary-store row changes into the mirror.

## How the model is built

- **Money** is integer paise and **identifiers** are naturals.
  Database-generated ids come from a counter kept in each store.
- **Timestamps** are opaque integers.
- **External inputs are parameters.** These are the signed-in user, the
  random draw, the HMAC digest, the gateway's reply and the set of store
  calls that fail.
- **Each store is a class** whose fields are its tables or collections.
  Every handler that changes a store is a method on it that `modifies` the
  store. Its postcondition equates the reply and the new store with a pure
  function of the old store value (`Effect`/`Served`, `Handled`, `Routed`,
  `Fetched`/`HookRun`).
- **The properties the source promises are lemmas** about those functions.
  They cover:
  - per-kind effects and their reversal;
  - "nothing else changes" frames;
  - the create-then-delete round trip;
  - the invariant that a wallet's aggregates equal the fold of the effects
    of its successful transactions. This invariant holds where the code
    keeps it, and is stated as a counterexample where it does not: editing
    a row, a failed second write, the webhook's round-up credit (whose
    logged row counts the whole credited amount as round-up), and mirrored
    transaction events.

## Where the code breaks the ledger invariant

The ledger invariant is that a wallet's aggregates equal the fold of the
effects of its successful transactions. Keeping it would need two
guarantees the code does not give: the transaction write and the wallet
write are not one atomic step, and webhook deliveries are not handled
exactly once. The model follows the code and states each resulting gap
as a lemma:

- **Aggregates can drift from the ledger.** Editing a row, a logged
  failure of the second write, the webhook's round-up credit and mirrored
  transaction events all leave a wallet's aggregates out of step with its
  rows.
- **`rewards_earned` is not maintained by the primary store.** Its balance
  rule never writes `rewards_earned`, so the fold there covers only the
  balance and the round-up total.
- **Mirror round-ups lower the balance.** The mirror's `POST /transaction`
  subtracts a round-up from the balance while adding it to the round-up
  total. The primary store adds it to both.
  `MirrorWalletRoutes.RoundUpOppositeToPrimaryStore` states the difference.
  The wallet save then runs the schema's `min: 0` on the balance, so a
  withdrawal or round-up larger than the balance is refused with 400
  (`MirrorWalletRoutes.OverdraftRefused`).
- **Replayed deliveries credit again.** The payment webhook has no
  terminal-state guard on the intent, so a replayed captured delivery
  credits the wallet again.
- **A missing signature header is accepted.** A delivery without a
  signature header is never rejected by the signature check.
- **Zero points count as ten in one route.**
  `backend/routes/eduScoreRoutes.js` writes `pointsEarned || 10`, which
  turns 0 points into 10. `backend/routes/eduScore.js` and the client hook
  use a default parameter instead, which applies only to a missing value.
- **The hook decides on a stale record.** In `useEduScore`,
  `completeLesson` and `retakeLesson` decide and compute from the record
  they captured when called, even though they reload first. This is the
  `current` parameter.

## Model

| member | source | states |
|---|---|---|
| Common.ParseType | src/types/wallet.ts:3 | a wire name that parses denotes a kind whose name it is, so the parser never invents a kind |
| Common.ParseTypeName | src/types/wallet.ts:3 | each of the four kinds 'round-up', 'deposit', 'withdrawal', 'reward' reads back from its own name (round trip) |
| Common.ParseStatus | src/lib/walletCrud.ts:10 | a status string that parses is the name of that status |
| Common.ParseStatusName | src/lib/walletCrud.ts:10 | 'pending', 'success' and 'failed' each read back to their own status (round trip) |
| Common.OrDefault | src/lib/walletCrud.ts:49 | the JavaScript `s \|\| d` on strings: a non-empty string is kept, the empty one becomes the default |
| RoundUp.CeilRupee | src/lib/api.ts:99 | Math.ceil on a rupee amount: a whole number of rupees, at least the amount and less than one rupee above it |
| RoundUp.CeilingRoundUp | src/lib/api.ts:98-100 | the saved change is below one rupee, completes the purchase to a whole rupee, and is zero exactly for a whole-rupee purchase |
| RoundUp.CeilingRoundUpUnique | src/lib/api.ts:98-100 | any amount below one rupee that completes the purchase to a whole rupee is the ceiling round-up (independent characterisation) |
| RoundUp.FlatRoundUp | src/lib/wallet.ts:69-70 | the flat round-up is always between 5.00 and 9.99 rupees |
| RoundUp.FlatRoundUpOnto | src/lib/wallet.ts:69-70 | every paise amount from 5.00 to 9.99 rupees is drawn for some random value, so those bounds are exact |
| Ledger.ApplyEffect | src/lib/walletCrud.ts:197-208 | deposit, round-up and reward credit the balance, withdrawal debits it, only round-up moves the round-up total, and an unknown type string leaves both totals unchanged |
| Ledger.EffectReversal | src/lib/walletCrud.ts:173-174 | applying the same type with the negated amount restores the totals exactly, so delete undoes create |
| Ledger.DeltaNegate | src/lib/walletCrud.ts:174 | a negated amount contributes the opposite of what the amount contributes |
| Ledger.ReplayAppend | src/lib/walletCrud.ts:61-64 | appending a row changes a wallet's fold by exactly that row's contribution |
| Ledger.ReplayRemoveAt | src/lib/walletCrud.ts:172-175 | removing a row changes a wallet's fold by exactly minus that row's contribution |
| Ledger.ReplayAbsent | src/lib/walletCrud.ts:197-198 | a wallet with no rows of its own folds to zero totals |
| Supabase.WalletByIdFinds | src/lib/walletCrud.ts:187-191 | when wallet ids are distinct, `.eq('id', id).single()` finds every wallet by its id |
| Supabase.FoundWalletIsRow | src/lib/walletCrud.ts:187-191 | a wallet that `.eq('id', id).single()` returns is a row of the table with that id, and no other row has that id |
| Supabase.UserWalletIsRow | src/lib/walletCrud.ts:31-35 | a wallet that `.eq('user_id', uid).single()` returns is the user's only row |
| Supabase.MaybeSingleWalletIsRow | src/lib/wallet.ts:56-60 | a wallet found by `.maybeSingle()` is the user's only row, the same one `.single()` returns |
| Supabase.SetTotals | src/lib/walletCrud.ts:210-217 | the update rewrites the balance, round-up total and date of the rows with that id and leaves every other row as it was |
| Supabase.SetBalance | src/lib/wallet.ts:153-159 | the update rewrites only the balance and date of the rows with that id and leaves every other row as it was |
| Supabase.TxsOfUserRows | src/lib/walletCrud.ts:83-86 | the user's listing holds only rows of the table that belong to the user, and every such row appears in it |
| Supabase.TxsOfWalletRows | src/lib/wallet.ts:27-31 | a wallet's listing holds only rows of the table for that wallet, and every such row appears in it |
| Supabase.PatchOwned | src/lib/walletCrud.ts:117-121 | the update rewrites the rows that match both the id and the user with the patch, keeps absent columns, and leaves the other rows alone |
| Supabase.OwnedRowUnique | src/lib/walletCrud.ts:148-165 | when the fetch with `.single()` matches one row, that row sits at one index and the delete on the same filter removes exactly that index |
| Supabase.AppendedRowOwned | src/lib/walletCrud.ts:42-54 | a row inserted with a fresh id is the only row the id and user filter selects |
| Supabase.PatchedRowUnique | src/lib/walletCrud.ts:117-123 | when the filter matches one row, the update rewrites exactly that index and `.select().single()` then returns the rewritten row |
| Supabase.CreditPreservesConsistency | src/lib/walletCrud.ts:61-64 | appending a row and moving its wallet by the row's contribution keeps every wallet equal to the fold of its successful rows |
| Supabase.InertAppendPreservesConsistency | src/lib/walletCrud.ts:61-64 | a row that is not successful can be appended without a wallet update and every wallet still matches its fold |
| Supabase.RemovalPreservesConsistency | src/lib/walletCrud.ts:172-175 | removing a row and moving its wallet back by the row's contribution keeps every wallet equal to its fold |
| Supabase.InertRemovalPreservesConsistency | src/lib/walletCrud.ts:172-175 | removing a row that is not successful needs no wallet update to keep every wallet equal to its fold |
| Supabase.EditBreaksConsistency | src/lib/walletCrud.ts:117-121 | an in-place edit that changes what a row contributes to an existing wallet leaves that wallet out of step with its fold, since nothing moves the wallet |
| Supabase.EditKeepsConsistency | src/lib/walletCrud.ts:117-121 | an in-place edit that leaves what the row contributes to every wallet unchanged keeps consistency |
| Supabase.EditConsistency | src/lib/walletCrud.ts:117-121 | starting from a consistent store, an in-place edit keeps consistency if and only if it leaves the row's contribution to every wallet unchanged |
| Supabase.AmountEditBreaksConsistency | src/lib/walletCrud.ts:117-121 | in particular, changing the amount of a successful row of an existing wallet breaks consistency |
| WalletCrud.NewRow | src/lib/walletCrud.ts:44-52 | the inserted row is successful exactly when the wallet is to be moved (status 'success' or omitted); an omitted status becomes 'success' and an omitted description '' |
| WalletCrud.UpdateWalletBalance | src/lib/walletCrud.ts:185-226 | the method's reply and new store are those of Rebalance, whose guarantees RebalanceOutcome states |
| WalletCrud.RebalanceOutcome | src/lib/walletCrud.ts:185-226 | a failed or empty read throws 'Wallet not found', a failed write throws the store's error, both changing nothing; otherwise the wallet with that id, and no other, moves by the type's effect and is stamped with the time |
| WalletCrud.RebalanceKeepsWellFormed | src/lib/walletCrud.ts:210-217 | the balance update keeps ids below the generator and wallet ids distinct |
| WalletCrud.CreateTransaction | src/lib/walletCrud.ts:21-71 | the method's reply and new store are those of Create; the store stays well formed |
| WalletCrud.CreateOutcome | src/lib/walletCrud.ts:21-71 | signed out, no single wallet or a failed insert throw with nothing written; otherwise the row with a fresh id is appended and stays, and the call returns it exactly when the wallet needs no move or its move succeeds, the move adding the row's contribution |
| WalletCrud.CreateKeepsWellFormed | src/lib/walletCrud.ts:42-64 | create keeps ids below the generator and wallet ids distinct, whichever call fails |
| WalletCrud.CreateKeepsConsistency | src/lib/walletCrud.ts:61-64 | a create that returns keeps every wallet equal to the fold of its successful rows |
| WalletCrud.CreateHalfDoneBreaksConsistency | src/lib/walletCrud.ts:56-69 | when the insert succeeds and the wallet update then fails, the call throws with the row kept and the wallet unmoved, and the store is no longer consistent |
| WalletCrud.NewestOfUserRows | src/lib/walletCrud.ts:83-87 | every row the listing holds is a stored row of the signed-in user |
| WalletCrud.NewestOfUserOrder | src/lib/walletCrud.ts:83-91 | the listing is newest first, a sub-multiset of the user's rows (all of them without a limit or with limit 0), and no row left out is newer than a listed one |
| WalletCrud.FetchTransactions | src/lib/walletCrud.ts:74-105 | signed out throws, a failed query throws; otherwise the user's rows newest first, each a stored row of the user and together a sub-multiset of the user's rows: all of them without a limit or with limit 0, and min(count, limit) of them with a positive limit, with no row left out newer than a listed one |
| WalletCrud.UpdateTransaction | src/lib/walletCrud.ts:108-135 | the method's reply and new store are those of Update; the store stays well formed |
| WalletCrud.UpdateOutcome | src/lib/walletCrud.ts:108-135 | signed out, a failed update or a filter not matching exactly one row throw with nothing changed; otherwise that one row is rewritten with the patch in place and returned, and nothing else changes |
| WalletCrud.UpdateKeepsWellFormed | src/lib/walletCrud.ts:117-123 | the update keeps row ids and wallet references below the generator |
| WalletCrud.UpdateConsistency | src/lib/walletCrud.ts:117-123 | since update never moves a wallet, a consistent store stays consistent if and only if the patch leaves the row's contribution to every wallet unchanged |
| WalletCrud.DeleteTransaction | src/lib/walletCrud.ts:138-182 | the method's reply and new store are those of Delete; the store stays well formed |
| WalletCrud.SettleDeletion | src/lib/walletCrud.ts:172-177 | once the row is gone, a successful row's type is applied with the negated amount, and the call returns true unless that update throws (the reply and store are those of Settle) |
| WalletCrud.DeleteOutcome | src/lib/walletCrud.ts:138-182 | signed out, a failed or non-single fetch, or a failed delete throw with nothing written; otherwise exactly the user's row with that id is removed and, for a successful row, the call returns true exactly when its wallet exists and the update succeeds, taking the row's contribution back out of that wallet |
| WalletCrud.DeleteKeepsWellFormed | src/lib/walletCrud.ts:160-175 | delete keeps ids below the generator and wallet ids distinct |
| WalletCrud.DeleteKeepsConsistency | src/lib/walletCrud.ts:160-175 | a delete that returns keeps every wallet equal to the fold of its successful rows |
| WalletCrud.CreateThenDeleteRestores | src/lib/walletCrud.ts:172-175 | creating a row and deleting it again, both returning, restores the transactions table and every wallet's totals; at most the wallet's last_transaction_date moves |
| WalletClient.FetchWallet | src/lib/wallet.ts:6-41 | signed out throws; a failed or non-single wallet read gives null; otherwise the user's wallet with its rows newest first (all of them, as a multiset), or with an empty list when the listing fails |
| WalletClient.InsertRoundUp | src/lib/wallet.ts:72-107 | the method's reply and new store are those of CreditRoundUp |
| WalletClient.CreditRoundUpOutcome | src/lib/wallet.ts:72-107 | an insert error gives null with nothing written; otherwise exactly one successful round-up row of the amount is appended and returned, and unless the wallet write fails, that wallet's balance and round-up total each grow by it and no other wallet changes |
| WalletClient.CreditRoundUpKeepsWellFormed | src/lib/wallet.ts:72-101 | the round-up insert and wallet write keep ids below the generator and wallet ids distinct |
| WalletClient.CreditRoundUpKeepsConsistency | src/lib/wallet.ts:72-101 | with no store error, the round-up keeps every wallet equal to its fold |
| WalletClient.CreditRoundUpLoggedFailureBreaksConsistency | src/lib/wallet.ts:94-107 | a failing wallet write is only logged: the row is still returned, and a non-zero round-up leaves the wallet behind its fold |
| WalletClient.SimulateRoundUpFlat | src/lib/wallet.ts:43-108 | the method's reply and new store are those of SimulateRoundUp; the store stays well formed |
| WalletClient.SimulateRoundUpOutcome | src/lib/wallet.ts:43-108 | only a signed-out call throws; a failed or non-single wallet read gives null with nothing written; otherwise the user's wallet gets a flat round-up between 5.00 and 9.99 rupees, whatever the purchase amount |
| WalletClient.SimulateRoundUpKeepsWellFormed | src/lib/wallet.ts:43-108 | the simulated round-up keeps the store well formed |
| WalletClient.SimulateRoundUpKeepsConsistency | src/lib/wallet.ts:43-108 | with no store error, the simulated round-up keeps every wallet equal to its fold |
| WalletClient.AddManualDeposit | src/lib/wallet.ts:110-166 | the method's reply and new store are those of AddDeposit; the store stays well formed |
| WalletClient.InsertDeposit | src/lib/wallet.ts:131-165 | the method's reply and new store are those of CreditDeposit |
| WalletClient.CreditDepositOutcome | src/lib/wallet.ts:131-165 | an insert error gives null with nothing written; otherwise one successful deposit row is appended and returned, described 'Manual deposit' when no description is given, and unless the wallet write fails that wallet's balance alone grows by the amount |
| WalletClient.CreditDepositKeepsWellFormed | src/lib/wallet.ts:131-159 | the deposit insert and balance write keep the store well formed |
| WalletClient.AddDepositOutcome | src/lib/wallet.ts:110-166 | only a signed-out call throws; a failed or non-single wallet read gives null with nothing written; otherwise the deposit goes into the user's wallet |
| WalletClient.AddDepositKeepsWellFormed | src/lib/wallet.ts:110-166 | the deposit keeps the store well formed |
| WalletClient.CreditDepositKeepsConsistency | src/lib/wallet.ts:131-159 | with no store error, the deposit keeps every wallet equal to its fold |
| ApiClient.SimulateRoundUpCeiling | src/lib/api.ts:75-131 | the method's reply and new store are those of the ceiling SimulateRoundUp; the store stays well formed |
| ApiClient.SimulateRoundUpKeepsWellFormed | src/lib/api.ts:75-131 | the ceiling round-up keeps the store well formed |
| ApiClient.SimulateRoundUpOutcome | src/lib/api.ts:75-131 | signed out throws; a failed or non-single wallet read or an insert error gives null with nothing written; a returned row is a round-up of the user's wallet below one rupee that completes the purchase to a whole rupee |
| ApiClient.WholeRupeeStillInserts | src/lib/api.ts:97-118 | a whole-rupee purchase has nothing to round up, yet a round-up row of zero is still inserted and returned |
| ApiClient.SimulateRoundUpConsistency | src/lib/api.ts:120-130 | with no store error the ceiling round-up keeps the store consistent; an unchecked failing wallet write after a non-zero round-up breaks it |
| UseWallet.AddRoundUpState | src/hooks/useWallet.tsx:33-63 | the local wallet changes exactly when a transaction came back and a wallet was loaded; then both aggregates grow by its amount, its date becomes the last date, it goes first with the old rows after it in order, and the other fields are kept |
| UseWallet.OptimisticMatchesStore | src/hooks/useWallet.tsx:35-44 | when the local wallet agrees with the stored one and the round-up meets no store error, the optimistic state agrees with the stored wallet on balance, round-up total and last date |
| RoundUpForm.Preview | src/components/RazorpayRoundUpForm.tsx:56-57 | the shown round-up is zero exactly while the amount field is empty, and a flat draw between 5.00 and 9.99 rupees otherwise |
| RoundUpForm.SubmitForm | src/components/RazorpayRoundUpForm.tsx:17-21 | a submission goes through exactly when the amount field is non-empty and parses to a number above zero; the payment then asks for that positive amount, with a description that mentions 'Round-up' |
| RoundUpForm.SubmitShape | src/components/RazorpayRoundUpForm.tsx:42-54 | the payment asks for the original amount, not the amount plus the round-up; the description starts with 'Round-up payment: ' followed by the purchase name, 'Purchase' when none was given |
| RoundUpForm.SubmitMentionsRoundUp | src/components/RazorpayRoundUpForm.tsx:50-53 | every description the form submits contains 'Round-up' |
| Text.Contains | supabase/functions/razorpay-webhook/index.ts:145 | String.prototype.includes: true if and only if the substring occurs at some index |
| Text.ContainsPrefix | src/components/RazorpayRoundUpForm.tsx:52 | a string that starts with the substring contains it, whatever follows |
| Supabase.MarkSucceeded | supabase/functions/razorpay-webhook/index.ts:91-98 | the update sets status 'SUCCESS', the delivery as provider_response and the update time on the rows with that id, and leaves every other intent as it was |
| RazorpayWebhook.RoundUpShare | supabase/functions/razorpay-webhook/index.ts:145-154 | a payment whose description mentions 'Round-up' or 'round-up' gets an extra 5.00 to 9.99 rupees; any other payment gets nothing extra |
| RazorpayWebhook.HandleWebhook | supabase/functions/razorpay-webhook/index.ts:35-220 | the method's reply and new store are those of Handle; the store stays well formed |
| RazorpayWebhook.CreditPayment | supabase/functions/razorpay-webhook/index.ts:106-199 | the method's reply and new store are those of Credit; the store stays well formed |
| RazorpayWebhook.PostPayment | supabase/functions/razorpay-webhook/index.ts:156-191 | the method's reply and new store are those of Post; the store stays well formed |
| RazorpayWebhook.HandleKeepsWellFormed | supabase/functions/razorpay-webhook/index.ts:63-201 | handling any delivery keeps ids below the generator and wallet ids distinct |
| RazorpayWebhook.CreditKeepsWellFormed | supabase/functions/razorpay-webhook/index.ts:110-142 | finding or creating the payer's wallet and crediting it keeps the store well formed |
| RazorpayWebhook.PostKeepsWellFormed | supabase/functions/razorpay-webhook/index.ts:161-186 | the wallet write and the logged row keep the store well formed |
| RazorpayWebhook.SignatureGate | supabase/functions/razorpay-webhook/index.ts:22-57 | a parsed delivery is refused with 'Invalid webhook signature' exactly when it has a non-empty signature header, a secret is configured and the header differs from the body's digest; otherwise it is processed as if no check existed, so a delivery without the header always passes |
| RazorpayWebhook.MalformedBodyRejected | supabase/functions/razorpay-webhook/index.ts:50-51 | a body that is not JSON is answered with 500 before the signature is looked at, and nothing is written |
| RazorpayWebhook.OtherEventsIgnored | supabase/functions/razorpay-webhook/index.ts:63 | every event other than payment.captured is answered 200 and changes nothing |
| RazorpayWebhook.CapturedOutcome | supabase/functions/razorpay-webhook/index.ts:63-106 | the answer is 404 'Transaction not found for order: <id>' with nothing written exactly when the intent read fails or finds no single intent; a failed intent update gives 500 with nothing written; otherwise the intent is marked SUCCESS whatever the payment status, and a payment not in the captured state changes nothing else |
| RazorpayWebhook.PostOutcome | supabase/functions/razorpay-webhook/index.ts:156-191 | the wallet gets the paid amount plus the round-up share in balance and the share alone in round-up total, no other wallet changes; then one successful row of that total is logged for the payer, as a round-up exactly when the description mentions one, described 'Razorpay payment' when empty; a failing wallet write writes nothing, a failing row insert keeps the wallet write |
| RazorpayWebhook.PostDepositKeepsConsistency | supabase/functions/razorpay-webhook/index.ts:156-186 | a credited deposit moves the wallet by exactly what its logged row contributes, so every wallet stays equal to its fold |
| RazorpayWebhook.PostRoundUpBreaksConsistency | supabase/functions/razorpay-webhook/index.ts:156-186 | a credited round-up of a non-zero payment answers 200 but breaks the fold: the round-up total grows by the share only, while the logged round-up row counts the whole credited amount |
| RazorpayWebhook.PartialPostBreaksConsistency | supabase/functions/razorpay-webhook/index.ts:161-191 | a row insert that fails after the wallet write answers 500 yet leaves the wallet credited with no row behind it, breaking the fold whenever something was credited |
| RazorpayWebhook.OpenWallet | supabase/functions/razorpay-webhook/index.ts:121-142 | the payer's new wallet, with zero totals and the next id, is the last row, and the store stays well formed and consistent |
| RazorpayWebhook.CreditOutcome | supabase/functions/razorpay-webhook/index.ts:110-199 | a failed or ambiguous wallet read, or a failed wallet creation, answers 500 with nothing written; a payer with one wallet is credited on it; a payer without one gets a zero wallet with the next id, kept even when the credit fails, and ending with the paid amount plus share in balance and the share in round-up total |
| RazorpayWebhook.CreditDepositKeepsConsistency | supabase/functions/razorpay-webhook/index.ts:110-191 | with the wallet write and row insert working, a deposit keeps every wallet equal to its fold, whether the wallet existed or was created |
| RazorpayWebhook.CreditRoundUpBreaksConsistency | supabase/functions/razorpay-webhook/index.ts:145-186 | a credited round-up of a non-zero payment that answers 200 leaves the store inconsistent, whether the wallet existed or was created |
| Text.NatText | supabase/functions/razorpay-webhook/index.ts:83 | the order id renders as a non-empty string of decimal digits |
| RazorpayPayment.OrderFor | supabase/functions/razorpay-payment/index.ts:58-66 | the order asks for exactly the requested amount in INR, is receipted with the transaction id, carries the user, and is described 'Wallet deposit' when no description is given |
| RazorpayPayment.HandlePayment | supabase/functions/razorpay-payment/index.ts:22-124 | the method's reply and new store are those of CreateOrder; the store stays well formed |
| RazorpayPayment.CreateOrderKeepsWellFormed | supabase/functions/razorpay-payment/index.ts:55-100 | opening an order keeps the store well formed |
| RazorpayPayment.CreateOrderOutcome | supabase/functions/razorpay-payment/index.ts:32-88 | missing credentials, then a missing or non-positive amount, then a missing user are rejected in that order with nothing written; a valid request sends an order for exactly the requested amount receipted with a fresh id, and a gateway rejection is answered with 'Razorpay API error: ' and its reason |
| RazorpayPayment.OpenedOrderRecorded | supabase/functions/razorpay-payment/index.ts:90-113 | the answer is 200 exactly when the order was opened; the intent is then recorded as CREATED by RAZORPAY for the requested amount and user, under the reply's transaction id and the gateway's order id, unless the unchecked insert failed, in which case no intent exists although the client is told the order is open |
| PaymentFlow.FormPaymentsCreditedAsRoundUps | src/components/RazorpayRoundUpForm.tsx:50-53 | the description the webhook sees for a payment made through the round-up form always mentions 'Round-up', so the webhook credits it as a round-up with a second flat draw |
| PaymentFlow.OrderThenCapture | supabase/functions/razorpay-webhook/index.ts:72-106 | round trip: once an order is opened for a new gateway order id and its intent recorded, the capture of that order finds exactly that intent, marks it SUCCESS and credits the requesting user with the captured amount |
| PaymentFlow.MarkKeepsPayer | supabase/functions/razorpay-webhook/index.ts:91-98 | marking the order's intent keeps it the order's only intent, with the same payer |
| PaymentFlow.PaidToFollowsOwners | supabase/functions/razorpay-webhook/index.ts:110-114 | which wallet an order pays into depends only on the intents and on who owns which wallet |
| PaymentFlow.CapturedDeposit | supabase/functions/razorpay-webhook/index.ts:63-209 | one delivery of a captured deposit answers 200, moves the payer's only wallet up by the captured amount, logs one row, and keeps the store well formed with the same payer and wallet |
| PaymentFlow.ReplayedCaptureCreditsTwice | supabase/functions/razorpay-webhook/index.ts:72-106 | the webhook keeps no record of handled deliveries: the same captured deposit delivered twice is credited twice with two rows, although the intent is already SUCCESS after the first |
| Mongo.NewWallet | backend/models/Wallet.js:4-37 | a new wallet document needs only its user: balance, round-up total and rewards default to zero and both dates to the time of creation |
| Mongo.WalletBoundsKept | backend/models/Wallet.js:14-28 | the defaults satisfy the `min: 0` bounds, and raising balance and round-up total by non-negative amounts keeps them |
| Mongo.CastTx | backend/models/Transaction.js:4-40 | a document is built exactly when the type names one of the four kinds and the status, if given, one of the three statuses; it keeps the amount, wallet and user, and the status defaults to success |
| Mongo.NegativeAmountAccepted | backend/models/Transaction.js:24-27 | the schema puts no lower bound on amount: a deposit of minus one rupee is accepted |
| Mongo.NewEdu | backend/models/EduScore.js:4-31 | a new edu score document has score 0, no completed lessons, and both dates set to the time of creation |
| Mongo.PreSave | backend/models/EduScore.js:33-36 | every save sets lastUpdated to the time of the save and changes no other field |
| Mongo.WalletOfUser | backend/routes/wallet.js:12 | `findOne({ userId })` gives the first wallet of the user, or none exactly when the user has no wallet |
| Mongo.EduOfUser | backend/routes/eduScore.js:11 | `findOne({ userId })` gives the first edu score of the user, or none exactly when the user has none |
| Mongo.SaveEdu | backend/models/EduScore.js:14-18 | a save fails exactly when the score is negative, the `min: 0` bound |
| Mongo.SaveEduAt | backend/models/EduScore.js:33-36 | saving a document whose id is stored writes over that document, stamped by the hook |
| Mongo.SaveEduNew | backend/models/EduScore.js:33-36 | saving a document with a new id appends it, stamped by the hook |
| Mongo.DocReplayAppend | backend/routes/wallet.js:53-59 | adding a transaction document changes a wallet's fold by exactly what that document contributes |
| WalletApi.NewestRows | backend/routes/wallet.js:17-19 | every transaction the listing holds is a stored transaction of the wallet |
| WalletApi.NewestListing | backend/routes/wallet.js:17-19 | the listing holds min(n, 50) of the wallet's n transactions, newest first, each stored and belonging to the wallet, none more often than stored; every transaction left out is no newer than any listed |
| WalletApi.GetWallet | backend/routes/wallet.js:10-29 | a store fault gives 500, a user without a wallet 404; otherwise the user's first wallet with the listing NewestListing describes |
| WalletApi.SaveAndCredit | backend/routes/wallet.js:45-59 | the method's reply and new collections are those of Record; every stored document still meets its schema |
| WalletApi.HandleRoundUp | backend/routes/wallet.js:32-70 | the method's reply and new collections are those of PostRoundUp; every stored document still meets its schema |
| WalletApi.HandleDeposit | backend/routes/wallet.js:73-111 | the method's reply and new collections are those of PostDeposit; every stored document still meets its schema |
| WalletApi.RecordKeepsStored | backend/routes/wallet.js:53-59 | the two saves keep every document within its schema bounds, with ids below the generator and distinct |
| WalletApi.RecordOutcome | backend/routes/wallet.js:45-65 | a fault of the transaction save gives 500 with nothing written; otherwise one success transaction of the amount is saved for the user's wallet; a fault of the wallet save then gives 500 with the transaction left behind; otherwise the wallet, and no other, rises by exactly the amounts and the reply's new balance is the stored one |
| WalletApi.RecordKeepsConsistency | backend/routes/wallet.js:53-59 | a completed write that raises the wallet by what the transaction's kind contributes keeps every wallet equal to its fold |
| WalletApi.HalfRecordBreaksConsistency | backend/routes/wallet.js:53-59 | when the wallet save fails after the transaction save, the transaction counts in the fold but not in the wallet, and the store is no longer consistent |
| WalletApi.PostRoundUpOutcome | backend/routes/wallet.js:32-70 | the body's amount makes no difference; a missing wallet gives 404 with nothing written; the answer is 200 exactly when the wallet exists and no store call fails, and then balance and round-up total both rise by the same draw of 5.00 to 9.99 rupees, described 'Round-up from purchase' when none is given |
| WalletApi.PostDepositOutcome | backend/routes/wallet.js:73-111 | a missing or non-positive amount gives 400 before the store is read; a missing wallet 404; the answer is 200 exactly when the amount is positive, the wallet exists and no store call fails, and then only the balance rises, by the amount, described 'Manual deposit' when none is given |
| WalletApi.WritesAndConsistency | backend/routes/wallet.js:32-111 | both writes keep the store consistent when they complete or write nothing, and break it when only the wallet save fails |
| EduScoreApi.HandleGetScore | backend/routes/eduScore.js:9-25 | the method's reply and new collections are those of GetScore; every stored document still meets its schema |
| EduScoreApi.GetScoreOutcome | backend/routes/eduScore.js:9-25 | a found record is returned with nothing written; a missing one is created with score 0 and no lessons under a new id and returned; the answer is 500 exactly on a failed read or a failed save of a new record; a second GET returns the same record and writes nothing |
| EduScoreApi.FinishLesson | backend/routes/eduScore.js:44-59 | the method's reply and new collections are those of Finish; every stored document still meets its schema |
| EduScoreApi.FinishOutcome | backend/routes/eduScore.js:44-59 | a lesson already listed is a 400 with nothing written; the lesson completes exactly when it is new, the save works and the new score is not negative, and then the updated, stamped record is written to its own slot and nothing else changes |
| EduScoreApi.HandleCompleteLesson | backend/routes/eduScore.js:28-64 | the method's reply and new collections are those of CompleteLesson; every stored document still meets its schema |
| EduScoreApi.CompleteLessonOutcome | backend/routes/eduScore.js:28-64 | an empty lesson id is a 400 with nothing written; a listed lesson is a 400; otherwise, unless the store fails or the score would go below zero, the user's record gains exactly the points (10 when none are sent) and the lesson at the end of its list, the reply reports the stored score and lesson count, and other records are untouched |
| EduScoreApi.CompleteLessonKeepsDistinct | backend/routes/eduScore.js:44-51 | completing a lesson never lists a lesson twice in a record |
| EduScoreApi.CompleteLessonTwiceRefused | backend/routes/eduScore.js:44-47 | a lesson completed once cannot be completed again: the repeat is a 400 and changes no record |
| Mirror.WalletWithId | backend/routes/walletRoutes.js:44 | the index of the first wallet with the id, or -1 exactly when no wallet has it |
| Mirror.WalletOfUser | backend/routes/walletRoutes.js:11 | the index of the first wallet of the user, or -1 exactly when the user has none |
| Mirror.EduOfUser | backend/routes/eduScoreRoutes.js:9 | the index of the first learning-score record of the user, or -1 exactly when the user has none |
| Mirror.RemoveAt | backend/routes/webhookRoutes.js:29 | deleting at a found index removes exactly that document and keeps the rest in order; with no match nothing is removed |
| MirrorWalletRoutes.GetByUser | backend/routes/walletRoutes.js:8-19 | a failing query is a 500; otherwise the reply is a wallet exactly when the user has one, and then it is the user's first wallet; otherwise a 404 |
| MirrorWalletRoutes.GetEntries | backend/routes/walletRoutes.js:82-93 | a failing query is a 500; otherwise the reply lists entries exactly when a wallet has the id, and they are that wallet's embedded array in stored order; otherwise a 404 |
| MirrorWalletRoutes.RoundUpOppositeToPrimaryStore | backend/routes/walletRoutes.js:59-64 | the same round-up moves this route's balance by the negation of the primary store's rule, while both raise the round-up total by the amount |
| MirrorWalletRoutes.PostTransaction | backend/routes/walletRoutes.js:40-79 | the reply and the new collections are those of RecordTransaction, including the 400 for a save that would leave the balance below the schema's 0 |
| MirrorWalletRoutes.RecordTransactionOutcome | backend/routes/walletRoutes.js:40-79 | an unknown wallet is a 404 with nothing written; a transaction that would leave the balance below 0 is refused with 400 by the schema's `min: 0` (backend/models/Wallet.js:14-18); every error leaves the wallets unchanged; an entry is created exactly when both store calls work, the wallet exists and the new balance is not negative, and then it is appended after the unchanged earlier entries with the generated id, deposit and reward raise the balance, withdrawal and round-up lower it, only a round-up raises the round-up total, only a reward raises rewards_earned, an unknown type moves nothing, the date is stamped and other wallets are untouched |
| MirrorWalletRoutes.RecordKeepsBalanceBound | backend/models/Wallet.js:14-18 | when every wallet's balance is non-negative, recording any transaction, of any type and amount, keeps every balance non-negative |
| MirrorWalletRoutes.OverdraftRefused | backend/routes/walletRoutes.js:59-79 | a withdrawal of 5 rupees from a wallet holding 1 rupee is answered 400 and leaves the wallet as it was, and so is a round-up of 5 rupees, which this route subtracts |
| MirrorWalletRoutes.RecordKeepsBalanced | backend/routes/walletRoutes.js:57-72 | recording any transaction keeps every wallet's aggregates equal to the fold of its embedded entries |
| MirrorSync.UpsertWalletShape | backend/routes/webhookRoutes.js:16-26 | the upserted wallet sits at the record's id, in its old place with its entries or added at the end with none; every other wallet is unchanged and distinct ids stay distinct |
| MirrorSync.EntryOf | backend/routes/webhookRoutes.js:40-47 | the mirrored entry keeps the row's id, wallet and amount and carries no status |
| MirrorSync.UpsertEntryShape | backend/routes/webhookRoutes.js:37-58 | the first entry with the id is replaced and the rest are unchanged; without one, the entry is appended and none had its id |
| MirrorSync.UpsertEntryIdempotent | backend/routes/webhookRoutes.js:37-58 | applying the same transaction row twice leaves what applying it once leaves |
| MirrorSync.RemoveEntriesShape | backend/routes/webhookRoutes.js:67 | no entry with the id is left, every entry with another id stays, order is kept, and deleting twice is deleting once |
| MirrorSync.RemoveAfterUpsert | backend/routes/webhookRoutes.js:37-67 | a delete after an upsert of the same id leaves what the delete alone would |
| MirrorSync.UpsertEduShape | backend/routes/webhookRoutes.js:76-84 | the upserted learning score sits at the user, in place or at the end; every other record is unchanged and distinct users stay distinct |
| MirrorSync.SyncWallet | backend/routes/webhookRoutes.js:14-31 | the reply and the new collections are those of the wallet branch of the applier |
| MirrorSync.SyncTransaction | backend/routes/webhookRoutes.js:32-73 | the reply and the new collections are those of the transaction branch of the applier, including the 500 when `wallet.save()` refuses a parent wallet with a negative balance |
| MirrorSync.SyncEdu | backend/routes/webhookRoutes.js:74-89 | the reply and the new collections are those of the edu_scores branch of the applier |
| MirrorSync.HandleChange | backend/routes/webhookRoutes.js:7-97 | the reply and the new collections are those of the applier for the event, including the 500 for a transaction change whose parent wallet has a negative balance |
| MirrorSync.IgnoredChanges | backend/routes/webhookRoutes.js:14-90 | another table, a change type other than INSERT, UPDATE or DELETE, and a transaction change whose parent wallet is missing are all answered 200 with nothing changed |
| MirrorSync.FailureWritesNothing | backend/routes/webhookRoutes.js:59-96 | a 500 changes nothing; with a working store an INSERT, UPDATE or DELETE is a 500 exactly when the record it reads is missing or, for a transaction change, when the parent wallet's balance is negative, which the save's `min: 0` (backend/models/Wallet.js:14-18) refuses |
| MirrorSync.NegativeMirroredBalanceBlocksEntries | backend/routes/webhookRoutes.js:16-59 | the wallet upsert stores a negative balance copied from the primary store without any check, and a later transaction INSERT for that wallet is then a 500 that leaves the mirror as the upsert left it |
| MirrorSync.WalletUpsertOutcome | backend/routes/webhookRoutes.js:15-27 | a wallet INSERT or UPDATE leaves at the record's id a wallet with exactly the five copied fields, keeping its entries and place or added new with none; learning scores and other wallets are untouched |
| MirrorSync.TransactionUpsertOutcome | backend/routes/webhookRoutes.js:33-60 | a transaction INSERT or UPDATE for a parent wallet with a negative balance is a 500 that writes nothing; otherwise it changes only the parent wallet's embedded array, to the replace-or-append of the mirrored entry, and no wallet's id, owner, aggregates or date change; replaying the event changes nothing more |
| MirrorSync.TransactionDeleteOutcome | backend/routes/webhookRoutes.js:64-69 | a transaction DELETE for a parent wallet with a negative balance is a 500 that writes nothing; otherwise it filters every entry with the row's id out of the parent wallet's array and changes nothing else |
| MirrorSync.MirroredDepositUnbalances | backend/routes/webhookRoutes.js:50-59 | mirroring a new non-zero deposit into a wallet whose aggregates matched its entries and whose balance the save accepts leaves them out of step, since the aggregates are not recomputed |
| MirrorSync.EduUpsertOutcome | backend/routes/webhookRoutes.js:75-85 | an edu_scores INSERT or UPDATE leaves the user's record with exactly the copied score, lessons and date, in place or at the end; wallets and other records are untouched |
| MirrorSync.ApplyKeepsKeyed | backend/routes/webhookRoutes.js:14-90 | every event keeps wallet ids and learning-score users distinct |
| MirrorEduRoutes.GetByUser | backend/routes/eduScoreRoutes.js:6-17 | a failing query is a 500; otherwise the reply is a record exactly when the user has one, and then it is the user's first record; otherwise a 404 |
| MirrorEduRoutes.PutShape | backend/routes/eduScoreRoutes.js:40 | saving the user's record leaves it, and only it, at the user's place (the old one, or a new one at the end); other records are unchanged and users stay distinct |
| MirrorEduRoutes.SaveRecord | backend/models/EduScore.js:14-18 | a negative score is refused by the schema's minimum and a failing store is refused, both as 400 with nothing written; otherwise the record is written at its place |
| MirrorEduRoutes.HandlePostScore | backend/routes/eduScoreRoutes.js:20-45 | the reply and the new collections are those of PostScore |
| MirrorEduRoutes.PostScoreOutcome | backend/routes/eduScoreRoutes.js:20-45 | every error is a 400 that changes nothing; with a working store the record is saved exactly when its score is not negative; the saved record takes each field the request carries and keeps each it omits (the old value, or 0 and no lessons for a new record), an existing one is stamped, the user keeps one record and nothing else changes |
| MirrorEduRoutes.HandleCompleteLesson | backend/routes/eduScoreRoutes.js:48-77 | the reply and the new collections are those of CompleteLesson |
| MirrorEduRoutes.CompleteLessonOutcome | backend/routes/eduScoreRoutes.js:48-77 | a lesson already held is a 200 with nothing earned and nothing written; otherwise, with a working store, the lesson completes exactly when the new score is not negative, earning pointsEarned with 10 for a missing or zero value; a new record holds those points and that one lesson, an existing one gains the points and the lesson at the end and is stamped; errors are 400s that change nothing |
| MirrorEduRoutes.CompleteLessonKeepsDistinct | backend/routes/eduScoreRoutes.js:62-68 | completing keeps every record free of repeated lessons and users distinct, and completing the same lesson again earns nothing and writes nothing |
| UseEduScore.PointsOr | src/hooks/useEduScore.ts:82 | a given number of points is used as given (so 0 stays 0); only a missing one falls back to the default |
| UseEduScore.WithoutLessonShape | src/hooks/useEduScore.ts:180-181 | a retake removes every occurrence of the lesson and keeps every other lesson; the score never drops below zero and falls by the points when it can |
| UseEduScore.RetakeUndoesComplete | src/hooks/useEduScore.ts:111-112 | retaking a lesson just completed with the same points, when it was not held before and the score was not negative, gives back the earlier lessons and score |
| UseEduScore.DefaultRow | src/hooks/useEduScore.ts:49-53 | the row created for a user without one belongs to the user, with score 0 and no lessons |
| UseEduScore.AppendedEduRow | src/hooks/useEduScore.ts:46-55 | after inserting the only row of a user, the user's selection is exactly that row |
| UseEduScore.FetchOutcome | src/hooks/useEduScore.ts:21-80 | without a user only the error is set; any error keeps the loaded record and writes nothing; otherwise the loaded record is the user's single row; with a working store, a user with no row gets the default row inserted with a fresh id, and a second load writes nothing more |
| UseEduScore.SetEduKeepsUserRows | src/hooks/useEduScore.ts:114-123 | the update of the user's rows neither adds rows to the user's selection nor removes any from it |
| UseEduScore.UpdateNeedsOneRow | src/hooks/useEduScore.ts:114-130 | when the user has no row or several rows, `.single()` refuses: the operation fails with 0 points, the hook state is the loader's and the rolled-back update leaves the table unchanged |
| UseEduScore.SetEduSingle | src/hooks/useEduScore.ts:114-123 | with exactly one row for the user, the update rewrites that row's score, lessons and date, leaves every other row alone, and `.single()` returns the rewritten row |
| UseEduScore.CompleteLessonOutcome | src/hooks/useEduScore.ts:82-148 | without a user the result is null and nothing changes; no captured record or a lesson already held gives failure with 0 points and no update; a failure earns 0; success happens whenever the captured record lacks the lesson, the update works and the user has one row, and then the user's row holds the captured score plus the points (10 when none are given) and the captured lessons with the new one at the end; a user with no row or several rows gets failure with 0 points, and every failure leaves the table as the loader left it |
| UseEduScore.RetakeLessonOutcome | src/hooks/useEduScore.ts:150-217 | without a user the result is null and nothing changes; a lesson the captured record lacks gives failure with 0 points and no update; success happens whenever the captured record holds the lesson, the update works and the user has one row, and then the user's row lacks the lesson and its score is the captured score less the points, never below zero; a user with no row or several rows gets failure with 0 points, and every failure leaves the table as the loader left it |
| UseEduScore.FetchEduScore | src/hooks/useEduScore.ts:21-80 | the new hook state and table are those of Fetch |
| UseEduScore.UpdateRow | src/hooks/useEduScore.ts:114-130 | the result and new table are those of Update: the rewritten row when the user has exactly one, otherwise a refusal with the update rolled back and the table unchanged (UpdateNeedsOneRow) |
| UseEduScore.HandleCompleteLesson | src/hooks/useEduScore.ts:82-148 | the result, hook state and new table are those of CompleteLesson, so a refused `.single()` (no row or several rows for the user) and every other failure leave the table as the loader left it (CompleteLessonOutcome) |
| UseEduScore.HandleRetakeLesson | src/hooks/useEduScore.ts:150-217 | the result, hook state and new table are those of RetakeLesson, so a refused `.single()` (no row or several rows for the user) and every other failure leave the table as the loader left it (RetakeLessonOutcome) |
| Supabase.SetEdu | src/hooks/useEduScore.ts:114-121 | `.update().eq('user_id', …)` rewrites the score, lessons and date of every row of the user and leaves every other row as it was |
| Supabase.NewWalletPreservesConsistency | supabase/functions/razorpay-webhook/index.ts:121-142 | adding a wallet with zero totals and no transactions keeps every wallet consistent with its ledger |

## Left out

- Floating point: money is integer paise. `toFixed`, `parseFloat`, `Number(...)` and rounding of fractional paise are not modelled, so the rupee-to-paise conversions (`amount * 100`, `payment.amount / 100`) are the identity on model amounts.
- NaN, strings or other non-numeric request amounts: amounts are integers, and a missing one is an `Option`.
- HMAC-SHA256 (`createHmac`): the digest is an uninterpreted function parameter; only the skip rule and the equality comparison are modelled.
- `Math.random()`, `crypto.randomUUID()`, ObjectId generation and `new Date()`: the draw is a parameter, ids come from store counters, timestamps are opaque parameters.
- Error texts produced by the runtime or the libraries (JSON.parse, the Postgres and Mongo drivers, Mongoose validation, a TypeError on a null record): each is a named constant (`MalformedBody`, `StoreFailure`, `ValidationFailed`, `NullRecord`), not the exact wording.
- `.single()` and `.maybeSingle()` errors are all one store failure; the error object's code and details are not modelled.
- Races between the separate read and write calls: each handler is one sequential step over the store value, and concurrent requests are not modelled.
- Authentication and middleware (`getCurrentUser`, the Express auth middleware, JWT): the signed-in user is a parameter, None when signed out.
- CORS preflight (`OPTIONS`) handling, logging, `console` output, toasts, loading flags and React re-rendering: no effect on the stores or on returned values.
- The column default of `transactions.status` in Postgres is not in the repository: the model assumes `'success'` (`Supabase.DefaultStatus`), matching the document schema's default.
- The `last_updated` column default of `edu_scores` is not in the repository: a row inserted without it has no date (None).
- `POST /` of backend/routes/walletRoutes.js (create a wallet document) is not modelled: it builds snake_case fields that the camelCase schema of backend/models/Wallet.js does not declare, so under Mongoose its save depends on strict-mode field dropping and on the required `userId`, which is runtime behaviour outside this model.
- Mongoose runtime behaviour beyond the declared defaults, enums, `min: 0` bounds and the pre-save hook: strict-mode field dropping, the virtual `id`, casting, and the validator engine. The mirror routes' snake_case documents are modelled as stored as written, except that every `wallet.save()` (backend/routes/walletRoutes.js:74, webhookRoutes.js:59 and 68) checks the balance's `min: 0` and a learning-score save checks the score's; the `findOneAndUpdate` upserts of webhookRoutes.js check nothing.
- MirrorEduRoutes.SaveRecord: checks only the schema's `min: 0` bound on the score; the required `userId` of backend/models/EduScore.js is not checked, since the mirror routes write `user_id`.
- MirrorEduRoutes.PostScoreOutcome: a new record has no `lastUpdated`, because the schema's pre-save hook stamps the camelCase field, which the snake_case shape does not carry.
- UseWallet.OptimisticMatchesStore: the model gives the inserted row's `created_at` (src/lib/api.ts:110) and the wallet's `last_transaction_date` (src/lib/api.ts:126) one timestamp, though each comes from its own `new Date()` call; in the program the optimistic date copied from `created_at` (src/hooks/useWallet.tsx:42) can be slightly earlier than the stored one, so the date equality holds only when both calls return the same instant. The same single timestamp stands for the two `new Date()` calls of src/lib/wallet.ts (lines 80 and 99, 139 and 157) and of src/lib/walletCrud.ts (the row's `created_at` at line 51 and the wallet's `last_transaction_date` at line 215, both `now` in `WalletCrud.Create`) and of the Express wallet routes (the transaction document's `createdAt` default `Date.now` at backend/models/Transaction.js:39 and the wallet's `lastTransactionDate` from `new Date()` at backend/routes/wallet.js:58 and 99, both `now` in `WalletApi.Record` and `WalletApi.SaveAndCredit`); no lemma relies on those being equal.
- Request bodies the two payment functions cannot read: a body of supabase/functions/razorpay-payment/index.ts that is not JSON (`await req.json()` at line 42 throws, and the catch at lines 114-121 answers 500) is outside `PaymentBody`, which is always a parsed body; and a webhook body that parses but whose `payment.captured` event lacks `payload.payment.entity` (the TypeError at supabase/functions/razorpay-webhook/index.ts:64, also a 500 through the catch at lines 210-217) is outside `WebhookEvent`, which always carries an entity. Both failures happen before any write, so they would leave the stores unchanged.
- Null aggregates and descriptions: `(wallet.balance || 0)` and `(wallet.roundup_total || 0)` (src/lib/wallet.ts:91-92, supabase/functions/razorpay-webhook/index.ts:156-157) and the optional `description?.includes` (supabase/functions/razorpay-webhook/index.ts:144) of the webhook's round-up test are not modelled as such; the model's aggregates and descriptions are never null, so these fallbacks never fire.
- A missing `lessonId` in backend/routes/eduScoreRoutes.js (`undefined` pushed into the list) is modelled as whatever string the request carries.
- Client-side UI (pages, dialogs, the other forms), src/lib/dualStorage.ts, src/lib/mongoAPI.ts, src/lib/supabase.ts, src/lib/auth.ts and backend/routes/sync.js, auth.js and server.js are not part of this model: they are rendering, SDK wrappers and process plumbing around the core.
