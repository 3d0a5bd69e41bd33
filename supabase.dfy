/** The primary (Postgres) store as the client library and the edge
    functions see it: four tables of rows, the query forms they use, and the
    consistency invariant between the wallets and transactions tables.

    Database-generated UUIDs come from the counter nextId; the column default
    of transactions.status, which the code relies on when it omits the
    status, is DefaultStatus. */
module Supabase {
  import opened Common
  import opened WalletTypes
  import opened Ledger
  import Seqs
  import Gateway

  datatype WalletRow = WalletRow(
    id: Id,
    userId: Id,
    balance: Paise,
    roundupTotal: Paise,
    rewardsEarned: Paise,
    lastTransactionDate: Timestamp)

  function TotalsOf(w: WalletRow): Totals {
    Totals(w.balance, w.roundupTotal)
  }

  /** A row of payment_transactions: one payment intent. */
  datatype IntentRow = IntentRow(
    id: Id,
    userId: Id,
    amount: Paise,
    description: string,
    status: string,
    paymentMethod: string,
    providerTransactionId: Id,
    providerResponse: Option<Gateway.WebhookEvent>,
    createdAt: Timestamp,
    updatedAt: Option<Timestamp>)

  datatype EduScoreRow = EduScoreRow(
    id: Id,
    userId: Id,
    score: int,
    completedLessons: seq<string>,
    lastUpdated: Option<Timestamp>)

  /** Column default of transactions.status (see README). */
  const DefaultStatus := "success"

  /** `.maybeSingle()`: no row, the one row, or an error when several match. */
  datatype Lookup<T> = NoRow | OneRow(row: T) | ManyRows

  function MaybeSingle<T>(rows: seq<T>): Lookup<T> {
    if |rows| == 0 then NoRow else if |rows| == 1 then OneRow(rows[0]) else ManyRows
  }

  /** `.single()`: the row when exactly one matches, an error otherwise. */
  function Single<T>(rows: seq<T>): Option<T> {
    if |rows| == 1 then Some(rows[0]) else None
  }

  // ---- wallets ----

  /** `.from('wallets').select().eq('user_id', uid)`. */
  function WalletsOfUser(ws: seq<WalletRow>, uid: Id): seq<WalletRow> {
    Seqs.Filter(ws, (w: WalletRow) => w.userId == uid)
  }

  /** `.from('wallets').select().eq('id', id)`. */
  function WalletsWithId(ws: seq<WalletRow>, id: Id): seq<WalletRow> {
    Seqs.Filter(ws, (w: WalletRow) => w.id == id)
  }

  /** The wallet of a user, read with `.eq('user_id', uid).single()`. */
  function UserWallet(ws: seq<WalletRow>, uid: Id): Option<WalletRow> {
    Single(WalletsOfUser(ws, uid))
  }

  /** The wallet with an id, read with `.eq('id', id).single()`. */
  function WalletById(ws: seq<WalletRow>, id: Id): Option<WalletRow> {
    Single(WalletsWithId(ws, id))
  }

  ghost predicate DistinctWalletIds(ws: seq<WalletRow>) {
    forall i, j :: 0 <= i < j < |ws| ==> ws[i].id != ws[j].id
  }

  /** With distinct ids, every wallet is found by its id. */
  lemma WalletByIdFinds(ws: seq<WalletRow>, k: nat)
    requires DistinctWalletIds(ws) && k < |ws|
    ensures WalletById(ws, ws[k].id) == Some(ws[k])
  {
    Seqs.FilterSingle(ws, k, (w: WalletRow) => w.id == ws[k].id);
  }

  /** The wallet `.eq('id', id).single()` returns is the one row of the
      table with that id. */
  lemma FoundWalletIsRow(ws: seq<WalletRow>, id: Id) returns (k: nat)
    requires WalletById(ws, id).Some?
    ensures k < |ws| && ws[k] == WalletById(ws, id).value && ws[k].id == id
    ensures forall j :: 0 <= j < |ws| && j != k ==> ws[j].id != id
  {
    k := Seqs.FilterOne(ws, (w: WalletRow) => w.id == id);
  }

  /** The wallet `.eq('user_id', uid).single()` returns is the one row of
      that user. */
  lemma UserWalletIsRow(ws: seq<WalletRow>, uid: Id) returns (k: nat)
    requires UserWallet(ws, uid).Some?
    ensures k < |ws| && ws[k] == UserWallet(ws, uid).value && ws[k].userId == uid
    ensures forall j :: 0 <= j < |ws| && j != k ==> ws[j].userId != uid
  {
    k := Seqs.FilterOne(ws, (w: WalletRow) => w.userId == uid);
  }

  /** `.maybeSingle()` on the user's wallets found the one row of that user. */
  lemma MaybeSingleWalletIsRow(ws: seq<WalletRow>, uid: Id) returns (k: nat)
    requires MaybeSingle(WalletsOfUser(ws, uid)).OneRow?
    ensures k < |ws| && ws[k] == MaybeSingle(WalletsOfUser(ws, uid)).row && ws[k].userId == uid
    ensures UserWallet(ws, uid) == Some(ws[k])
  {
    k := UserWalletIsRow(ws, uid);
  }

  /** A wallet row with new totals, stamped with the time of the write. */
  function WithTotals(w: WalletRow, t: Totals, now: Timestamp): WalletRow {
    w.(balance := t.balance, roundupTotal := t.roundupTotal, lastTransactionDate := now)
  }

  /** `.update({balance, roundup_total, last_transaction_date}).eq('id', id)`. */
  function SetTotals(ws: seq<WalletRow>, id: Id, t: Totals, now: Timestamp): (r: seq<WalletRow>)
    ensures |r| == |ws|
    ensures forall k :: 0 <= k < |ws| ==> r[k] == if ws[k].id == id then WithTotals(ws[k], t, now) else ws[k]
  {
    Seqs.UpdateWhere(ws, (w: WalletRow) => w.id == id, (w: WalletRow) => WithTotals(w, t, now))
  }

  /** `.update({balance, last_transaction_date}).eq('id', id)`. */
  function SetBalance(ws: seq<WalletRow>, id: Id, balance: Paise, now: Timestamp): (r: seq<WalletRow>)
    ensures |r| == |ws|
    ensures forall k :: 0 <= k < |ws| ==>
      r[k] == if ws[k].id == id then ws[k].(balance := balance, lastTransactionDate := now) else ws[k]
  {
    Seqs.UpdateWhere(ws, (w: WalletRow) => w.id == id,
      (w: WalletRow) => w.(balance := balance, lastTransactionDate := now))
  }

  // ---- transactions ----

  /** `.from('transactions').select().eq('wallet_id', walletId)`. */
  function TxsOfWallet(txs: seq<Transaction>, walletId: Id): seq<Transaction> {
    Seqs.Filter(txs, (t: Transaction) => t.walletId == walletId)
  }

  /** `.from('transactions').select().eq('user_id', uid)`. */
  function TxsOfUser(txs: seq<Transaction>, uid: Id): seq<Transaction> {
    Seqs.Filter(txs, (t: Transaction) => t.userId == Some(uid))
  }

  /** The user's listing holds exactly the user's rows of the table. */
  lemma TxsOfUserRows(txs: seq<Transaction>, uid: Id)
    ensures forall k :: 0 <= k < |TxsOfUser(txs, uid)| ==>
      TxsOfUser(txs, uid)[k].userId == Some(uid) && TxsOfUser(txs, uid)[k] in txs
    ensures forall k :: 0 <= k < |txs| && txs[k].userId == Some(uid) ==> txs[k] in TxsOfUser(txs, uid)
  {
    Seqs.FilterMembers(txs, (t: Transaction) => t.userId == Some(uid));
  }

  /** A wallet's listing holds exactly that wallet's rows of the table. */
  lemma TxsOfWalletRows(txs: seq<Transaction>, walletId: Id)
    ensures forall k :: 0 <= k < |TxsOfWallet(txs, walletId)| ==>
      TxsOfWallet(txs, walletId)[k].walletId == walletId && TxsOfWallet(txs, walletId)[k] in txs
    ensures forall k :: 0 <= k < |txs| && txs[k].walletId == walletId ==> txs[k] in TxsOfWallet(txs, walletId)
  {
    Seqs.FilterMembers(txs, (t: Transaction) => t.walletId == walletId);
  }

  /** The filter `.eq('id', id).eq('user_id', uid)`. */
  predicate OwnedRow(t: Transaction, id: Id, uid: Id) {
    t.id == id && t.userId == Some(uid)
  }

  function OwnedRows(txs: seq<Transaction>, id: Id, uid: Id): seq<Transaction> {
    Seqs.Filter(txs, (t: Transaction) => OwnedRow(t, id, uid))
  }

  /** Position of the first row the filter matches, -1 when none does. */
  function OwnedIndex(txs: seq<Transaction>, id: Id, uid: Id): int {
    Seqs.FirstIndex(txs, (t: Transaction) => OwnedRow(t, id, uid))
  }

  /** `.delete().eq('id', id).eq('user_id', uid)`. */
  function DeleteOwned(txs: seq<Transaction>, id: Id, uid: Id): seq<Transaction> {
    Seqs.Filter(txs, (t: Transaction) => !OwnedRow(t, id, uid))
  }

  /** The columns an update of a transaction row may set; absent ones are kept. */
  datatype TxPatch = TxPatch(
    txType: Option<TxType>,
    amount: Option<Paise>,
    description: Option<string>,
    status: Option<Status>)

  function Patched(t: Transaction, p: TxPatch): Transaction {
    t.(txType := if p.txType.Some? then p.txType.value else t.txType,
       amount := if p.amount.Some? then p.amount.value else t.amount,
       description := if p.description.Some? then p.description.value else t.description,
       status := if p.status.Some? then StatusName(p.status.value) else t.status)
  }

  /** `.update(patch).eq('id', id).eq('user_id', uid)`. */
  function PatchOwned(txs: seq<Transaction>, id: Id, uid: Id, p: TxPatch): (r: seq<Transaction>)
    ensures |r| == |txs|
    ensures forall k :: 0 <= k < |txs| ==> r[k] == if OwnedRow(txs[k], id, uid) then Patched(txs[k], p) else txs[k]
  {
    Seqs.UpdateWhere(txs, (t: Transaction) => OwnedRow(t, id, uid), (t: Transaction) => Patched(t, p))
  }

  /** When `.single()` on the filter succeeds, the matching row sits at one
      index, and the delete removes that index only. */
  lemma OwnedRowUnique(txs: seq<Transaction>, id: Id, uid: Id) returns (i: nat)
    requires |OwnedRows(txs, id, uid)| == 1
    ensures i < |txs| && i == OwnedIndex(txs, id, uid)
    ensures OwnedRows(txs, id, uid) == [txs[i]]
    ensures forall k :: 0 <= k < |txs| && k != i ==> !OwnedRow(txs[k], id, uid)
    ensures DeleteOwned(txs, id, uid) == txs[..i] + txs[i + 1..]
  {
    i := Seqs.FilterOne(txs, (t: Transaction) => OwnedRow(t, id, uid));
    Seqs.FilterAllBut(txs, i, (t: Transaction) => !OwnedRow(t, id, uid));
  }

  /** A row appended with an id no earlier row has is the only one the
      filter on its id selects. */
  lemma AppendedRowOwned(txs: seq<Transaction>, t: Transaction, n: nat, uid: Id)
    requires TxsBelow(txs, n) && t.id == n && t.userId == Some(uid)
    ensures OwnedRows(txs + [t], t.id, uid) == [t]
    ensures OwnedIndex(txs + [t], t.id, uid) == |txs|
  {
    var p := (x: Transaction) => OwnedRow(x, t.id, uid);
    var s := txs + [t];
    assert forall k :: 0 <= k < |s| && k != |txs| ==> s[k] == txs[k] && !p(s[k]);
    Seqs.FilterSingle(s, |txs|, p);
    var i := Seqs.FilterOne(s, p);
  }

  /** Likewise the update rewrites that index only, and the rewritten row is
      what the filter then selects. */
  lemma PatchedRowUnique(txs: seq<Transaction>, id: Id, uid: Id, p: TxPatch) returns (i: nat)
    requires |OwnedRows(txs, id, uid)| == 1
    ensures i < |txs| && i == OwnedIndex(txs, id, uid)
    ensures PatchOwned(txs, id, uid, p) == txs[i := Patched(txs[i], p)]
    ensures OwnedRows(PatchOwned(txs, id, uid, p), id, uid) == [Patched(txs[i], p)]
  {
    i := OwnedRowUnique(txs, id, uid);
    var txs' := txs[i := Patched(txs[i], p)];
    assert forall k :: 0 <= k < |txs'| && k != i ==> txs'[k] == txs[k];
    Seqs.FilterSingle(txs', i, (t: Transaction) => OwnedRow(t, id, uid));
  }

  // ---- payment_transactions ----

  /** `.from('payment_transactions').select().eq('provider_transaction_id', orderId)`. */
  function IntentsForOrder(rows: seq<IntentRow>, orderId: Id): seq<IntentRow> {
    Seqs.Filter(rows, (i: IntentRow) => i.providerTransactionId == orderId)
  }

  /** `.update({status: 'SUCCESS', provider_response, updated_at}).eq('id', id)`. */
  function MarkSucceeded(rows: seq<IntentRow>, id: Id, ev: Gateway.WebhookEvent, now: Timestamp): (r: seq<IntentRow>)
    ensures |r| == |rows|
    ensures forall k :: 0 <= k < |rows| ==>
      r[k] == if rows[k].id == id then rows[k].(status := "SUCCESS", providerResponse := Some(ev), updatedAt := Some(now)) else rows[k]
  {
    Seqs.UpdateWhere(rows, (i: IntentRow) => i.id == id,
      (i: IntentRow) => i.(status := "SUCCESS", providerResponse := Some(ev), updatedAt := Some(now)))
  }

  // ---- edu_scores ----

  function EduOfUser(rows: seq<EduScoreRow>, uid: Id): seq<EduScoreRow> {
    Seqs.Filter(rows, (e: EduScoreRow) => e.userId == uid)
  }

  /** `.update({score, completed_lessons, last_updated}).eq('user_id', uid)`. */
  function SetEdu(rows: seq<EduScoreRow>, uid: Id, score: int, lessons: seq<string>, now: Timestamp): (r: seq<EduScoreRow>)
    ensures |r| == |rows|
    ensures forall k :: 0 <= k < |rows| ==>
      r[k] == if rows[k].userId == uid then rows[k].(score := score, completedLessons := lessons, lastUpdated := Some(now)) else rows[k]
  {
    Seqs.UpdateWhere(rows, (e: EduScoreRow) => e.userId == uid,
      (e: EduScoreRow) => e.(score := score, completedLessons := lessons, lastUpdated := Some(now)))
  }

  // ---- the ledger invariant ----

  /** Every wallet's balance and round-up total equal the fold over its
      successful transactions. */
  ghost predicate Consistent(ws: seq<WalletRow>, txs: seq<Transaction>) {
    forall k :: 0 <= k < |ws| ==> TotalsOf(ws[k]) == Replay(txs, ws[k].id)
  }

  /** Appending a row and moving its wallet's totals by the row's
      contribution keeps every wallet equal to its fold. */
  lemma CreditPreservesConsistency(ws: seq<WalletRow>, txs: seq<Transaction>, row: Transaction, now: Timestamp)
    requires Consistent(ws, txs)
    ensures Consistent(SetTotals(ws, row.walletId, Plus(Replay(txs, row.walletId), Contribution(row, row.walletId)), now), txs + [row])
  {
    var ws' := SetTotals(ws, row.walletId, Plus(Replay(txs, row.walletId), Contribution(row, row.walletId)), now);
    forall k | 0 <= k < |ws'|
      ensures TotalsOf(ws'[k]) == Replay(txs + [row], ws'[k].id)
    {
      var id := ws[k].id;
      assert ws'[k].id == id;
      var before, after := Replay(txs, id), Replay(txs + [row], id);
      ReplayAppend(txs, row, id);
      assert after == Plus(before, Contribution(row, id));
      if id != row.walletId {
        assert ws'[k] == ws[k] && Contribution(row, id) == Zero;
        assert TotalsOf(ws[k]) == before;
        PlusZero(before);
      } else {
        assert TotalsOf(ws'[k]) == after;
      }
    }
  }

  /** Appending a row that contributes nothing to any wallet (not successful)
      needs no wallet update. */
  lemma InertAppendPreservesConsistency(ws: seq<WalletRow>, txs: seq<Transaction>, row: Transaction)
    requires Consistent(ws, txs) && !Succeeded(row)
    ensures Consistent(ws, txs + [row])
  {
    forall k | 0 <= k < |ws|
      ensures TotalsOf(ws[k]) == Replay(txs + [row], ws[k].id)
    {
      ReplayAppend(txs, row, ws[k].id);
      PlusZero(Replay(txs, ws[k].id));
    }
  }

  /** Removing a row and moving its wallet's totals back by the row's
      contribution keeps every wallet equal to its fold. */
  lemma RemovalPreservesConsistency(ws: seq<WalletRow>, txs: seq<Transaction>, i: nat, now: Timestamp)
    requires Consistent(ws, txs) && i < |txs|
    ensures Consistent(
      SetTotals(ws, txs[i].walletId, Minus(Replay(txs, txs[i].walletId), Contribution(txs[i], txs[i].walletId)), now),
      txs[..i] + txs[i + 1..])
  {
    var id := txs[i].walletId;
    var ws' := SetTotals(ws, id, Minus(Replay(txs, id), Contribution(txs[i], id)), now);
    forall k | 0 <= k < |ws'|
      ensures TotalsOf(ws'[k]) == Replay(txs[..i] + txs[i + 1..], ws'[k].id)
    {
      var rest := Replay(txs[..i] + txs[i + 1..], ws[k].id);
      assert ws'[k].id == ws[k].id;
      ReplayRemoveAt(txs, i, ws[k].id);
      if ws[k].id == id {
        MinusUndoesPlus(rest, Contribution(txs[i], id));
      } else {
        assert ws'[k] == ws[k] && Contribution(txs[i], ws[k].id) == Zero;
        PlusZero(rest);
      }
    }
  }

  /** Removing a row that was not successful needs no wallet update. */
  lemma InertRemovalPreservesConsistency(ws: seq<WalletRow>, txs: seq<Transaction>, i: nat)
    requires Consistent(ws, txs) && i < |txs| && !Succeeded(txs[i])
    ensures Consistent(ws, txs[..i] + txs[i + 1..])
  {
    forall k | 0 <= k < |ws|
      ensures TotalsOf(ws[k]) == Replay(txs[..i] + txs[i + 1..], ws[k].id)
    {
      ReplayRemoveAt(txs, i, ws[k].id);
      assert Contribution(txs[i], ws[k].id) == Zero;
      PlusZero(Replay(txs[..i] + txs[i + 1..], ws[k].id));
    }
  }

  /** A new wallet with zero totals and no rows of its own is consistent. */
  lemma NewWalletPreservesConsistency(ws: seq<WalletRow>, txs: seq<Transaction>, w: WalletRow)
    requires Consistent(ws, txs) && TotalsOf(w) == Zero
    requires forall k :: 0 <= k < |txs| ==> txs[k].walletId != w.id
    ensures Consistent(ws + [w], txs)
  {
    ReplayAbsent(txs, w.id);
  }

  /** Editing a row in place, so that what it contributes to an existing
      wallet changes, breaks that wallet's consistency: nothing re-derives the
      aggregates after an edit. */
  lemma EditBreaksConsistency(ws: seq<WalletRow>, txs: seq<Transaction>, i: nat, k: nat, edited: Transaction)
    requires Consistent(ws, txs) && i < |txs| && k < |ws|
    requires Contribution(edited, ws[k].id) != Contribution(txs[i], ws[k].id)
    ensures !Consistent(ws, txs[i := edited])
  {
    var txs' := txs[i := edited];
    var id := ws[k].id;
    assert txs'[..i] + txs'[i + 1..] == txs[..i] + txs[i + 1..];
    ReplayRemoveAt(txs, i, id);
    ReplayRemoveAt(txs', i, id);
    assert Replay(txs', id) != Replay(txs, id);
  }

  /** Conversely, an edit that leaves what the row contributes to every
      wallet as it was keeps consistency. */
  lemma EditKeepsConsistency(ws: seq<WalletRow>, txs: seq<Transaction>, i: nat, edited: Transaction)
    requires Consistent(ws, txs) && i < |txs|
    requires forall k :: 0 <= k < |ws| ==> Contribution(edited, ws[k].id) == Contribution(txs[i], ws[k].id)
    ensures Consistent(ws, txs[i := edited])
  {
    var txs' := txs[i := edited];
    assert txs'[..i] + txs'[i + 1..] == txs[..i] + txs[i + 1..];
    forall k | 0 <= k < |ws|
      ensures TotalsOf(ws[k]) == Replay(txs', ws[k].id)
    {
      ReplayRemoveAt(txs, i, ws[k].id);
      ReplayRemoveAt(txs', i, ws[k].id);
    }
  }

  /** Starting from a consistent store, an in-place edit keeps it consistent
      exactly when it leaves what the row contributes to every wallet as it was. */
  lemma EditConsistency(ws: seq<WalletRow>, txs: seq<Transaction>, i: nat, edited: Transaction)
    requires Consistent(ws, txs) && i < |txs|
    ensures Consistent(ws, txs[i := edited]) <==>
      forall k :: 0 <= k < |ws| ==> Contribution(edited, ws[k].id) == Contribution(txs[i], ws[k].id)
  {
    if forall k :: 0 <= k < |ws| ==> Contribution(edited, ws[k].id) == Contribution(txs[i], ws[k].id) {
      EditKeepsConsistency(ws, txs, i, edited);
    } else {
      var k :| 0 <= k < |ws| && Contribution(edited, ws[k].id) != Contribution(txs[i], ws[k].id);
      EditBreaksConsistency(ws, txs, i, k, edited);
    }
  }

  /** In particular, changing the amount of a successful row of an existing
      wallet breaks consistency. */
  lemma AmountEditBreaksConsistency(ws: seq<WalletRow>, txs: seq<Transaction>, i: nat, k: nat, amount: Paise)
    requires Consistent(ws, txs) && i < |txs| && k < |ws|
    requires Succeeded(txs[i]) && txs[i].walletId == ws[k].id && amount != txs[i].amount
    ensures !Consistent(ws, txs[i := txs[i].(amount := amount)])
  {
    EditBreaksConsistency(ws, txs, i, k, txs[i].(amount := amount));
  }

  // ---- id bounds kept by the table operations ----

  ghost predicate WalletsBelow(ws: seq<WalletRow>, n: nat) {
    forall k :: 0 <= k < |ws| ==> ws[k].id < n
  }

  /** Row ids and the wallets they point to were all generated before n. */
  ghost predicate TxsBelow(txs: seq<Transaction>, n: nat) {
    forall k :: 0 <= k < |txs| ==> txs[k].id < n && txs[k].walletId < n
  }

  lemma SetTotalsKeepsIds(ws: seq<WalletRow>, id: Id, t: Totals, now: Timestamp, n: nat)
    requires WalletsBelow(ws, n) && DistinctWalletIds(ws)
    ensures WalletsBelow(SetTotals(ws, id, t, now), n) && DistinctWalletIds(SetTotals(ws, id, t, now))
  {
    var r := SetTotals(ws, id, t, now);
    assert forall k :: 0 <= k < |r| ==> r[k].id == ws[k].id;
  }

  lemma RemovalKeepsBelow(txs: seq<Transaction>, i: nat, n: nat)
    requires TxsBelow(txs, n) && i < |txs|
    ensures TxsBelow(txs[..i] + txs[i + 1..], n)
  {
    var r := txs[..i] + txs[i + 1..];
    assert forall k :: 0 <= k < |r| ==> r[k] == if k < i then txs[k] else txs[k + 1];
  }

  lemma EditKeepsBelow(txs: seq<Transaction>, i: nat, p: TxPatch, n: nat)
    requires TxsBelow(txs, n) && i < |txs|
    ensures TxsBelow(txs[i := Patched(txs[i], p)], n)
  {
  }

  /** The store calls a handler makes; the ones in a handler's `failing`
      set report an error. */
  datatype Step =
    | WalletLookup   // wallets by user_id
    | WalletInsert   // insert into wallets
    | TxInsert       // insert into transactions
    | TxFetch        // select a transaction row
    | TxDelete       // delete a transaction row
    | TxUpdate       // update a transaction row
    | TxList         // select a list of transactions
    | BalanceFetch   // wallets by id
    | BalanceUpdate  // update of a wallet row
    | IntentLookup   // payment_transactions by provider_transaction_id
    | IntentInsert   // insert into payment_transactions
    | IntentUpdate   // update of a payment_transactions row
    | EduFetch       // edu_scores by user_id
    | EduInsert      // insert into edu_scores
    | EduUpdate      // update of an edu_scores row

  /** The four tables and the id generator, as one value. */
  datatype Store = Store(
    wallets: seq<WalletRow>,
    transactions: seq<Transaction>,
    paymentIntents: seq<IntentRow>,
    eduScores: seq<EduScoreRow>,
    nextId: nat)

  /** Every generated id is below nextId, and wallet ids are distinct (the
      primary key). */
  ghost predicate WellFormed(s: Store) {
    && WalletsBelow(s.wallets, s.nextId) && DistinctWalletIds(s.wallets)
    && TxsBelow(s.transactions, s.nextId)
    && (forall k :: 0 <= k < |s.paymentIntents| ==> s.paymentIntents[k].id < s.nextId)
    && (forall k :: 0 <= k < |s.eduScores| ==> s.eduScores[k].id < s.nextId)
  }

  /** What a handler returns or throws, and the store it leaves behind. */
  datatype Effect<T> = Effect(out: Outcome<T>, after: Store)

  /** What an edge function answers, and the store it leaves behind. */
  datatype Served<R> = Served(reply: R, after: Store)

  /** Inserting a row with a fresh id that points to an existing wallet id
      keeps the store well formed. */
  lemma InsertTxKeepsWellFormed(s: Store, row: Transaction)
    requires WellFormed(s) && row.id == s.nextId && row.walletId < s.nextId
    ensures WellFormed(s.(transactions := s.transactions + [row], nextId := s.nextId + 1))
  {
  }

  lemma SetTotalsKeepsWellFormed(s: Store, id: Id, t: Totals, now: Timestamp)
    requires WellFormed(s)
    ensures WellFormed(s.(wallets := SetTotals(s.wallets, id, t, now)))
  {
    SetTotalsKeepsIds(s.wallets, id, t, now, s.nextId);
  }

  /** With distinct wallet ids, writing only the balance of wallet k is
      writing its totals with the round-up total it already has. */
  lemma SetBalanceIsSetTotals(ws: seq<WalletRow>, k: nat, balance: Paise, now: Timestamp)
    requires DistinctWalletIds(ws) && k < |ws|
    ensures SetBalance(ws, ws[k].id, balance, now) == SetTotals(ws, ws[k].id, Totals(balance, ws[k].roundupTotal), now)
  {
    var a, b := SetBalance(ws, ws[k].id, balance, now), SetTotals(ws, ws[k].id, Totals(balance, ws[k].roundupTotal), now);
    forall j | 0 <= j < |ws| ensures a[j] == b[j] {
      if j != k {
        assert ws[j].id != ws[k].id;
      }
    }
  }

  /** The primary store, updated in place by the handlers. */
  class Db {
    var wallets: seq<WalletRow>
    var transactions: seq<Transaction>
    var paymentIntents: seq<IntentRow>
    var eduScores: seq<EduScoreRow>
    var nextId: nat

    function Snapshot(): Store
      reads this
    {
      Store(wallets, transactions, paymentIntents, eduScores, nextId)
    }

    ghost predicate Valid()
      reads this
    {
      WellFormed(Snapshot())
    }

    constructor ()
      ensures Valid()
      ensures Snapshot() == Store([], [], [], [], 0)
    {
      wallets, transactions, paymentIntents, eduScores := [], [], [], [];
      nextId := 0;
    }

    /** gen_random_uuid(): an id no row has yet. */
    method FreshId() returns (id: Id)
      modifies this`nextId
      ensures id == old(nextId) && nextId == id + 1
    {
      id := nextId;
      nextId := nextId + 1;
    }
  }
}
