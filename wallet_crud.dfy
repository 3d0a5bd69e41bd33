/** The client-side transaction CRUD of src/lib/walletCrud.ts over the
    primary store: create, list, update and delete a transaction row, with
    the wallet aggregates moved by updateWalletBalance on create and moved
    back on delete.

    Each handler is a method on the store object and is specified by a
    function of the store value (Rebalance, Create, Delete, Update); the
    lemmas state what those functions guarantee. The signed-in user is a
    parameter (None when signed out). Which store calls fail is the
    parameter `failing`; a failing call throws. */
module WalletCrud {
  import opened Common
  import opened WalletTypes
  import opened Ledger
  import opened Supabase
  import Seqs

  /** CreateTransactionData: description and status are optional. */
  datatype CreateData = CreateData(txType: TxType, amount: Paise, description: Option<string>, status: Option<Status>)

  /** The wallet is moved only for a success status or an omitted one. */
  predicate MovesWallet(d: CreateData) {
    d.status == Some(Success) || d.status.None?
  }

  /** The row createTransaction inserts. */
  function NewRow(d: CreateData, id: Id, walletId: Id, uid: Id, now: Timestamp): (t: Transaction)
    ensures Succeeded(t) <==> MovesWallet(d)
    ensures d.status.None? ==> t.status == "success"
    ensures d.description.None? ==> t.description == ""
    ensures t.id == id && t.walletId == walletId && t.userId == Some(uid)
    ensures t.txType == d.txType && t.amount == d.amount
  {
    var description := if d.description.Some? then OrDefault(d.description.value, "") else "";
    var status := if d.status.Some? then StatusName(d.status.value) else "success";
    Transaction(id, d.txType, d.amount, status, description, now, walletId, Some(uid))
  }

  // ---- the handlers as functions of the store ----

  /** updateWalletBalance. */
  function Rebalance(s: Store, walletId: Id, amount: Paise, typeName: string, now: Timestamp, failing: set<Step>): Effect<()> {
    var found := WalletById(s.wallets, walletId);
    if BalanceFetch in failing || found.None? then Effect(Threw(WalletNotFound), s)
    else if BalanceUpdate in failing then Effect(Threw(StoreFailure), s)
    else
      var totals := ApplyEffect(TotalsOf(found.value), amount, typeName);
      Effect(Returned(()), s.(wallets := SetTotals(s.wallets, walletId, totals, now)))
  }

  /** createTransaction gets past its wallet lookup and its insert. */
  predicate Inserts(s: Store, user: Option<Id>, failing: set<Step>) {
    user.Some? && WalletLookup !in failing && UserWallet(s.wallets, user.value).Some? && TxInsert !in failing
  }

  /** createTransaction. */
  function Create(s: Store, user: Option<Id>, data: CreateData, now: Timestamp, failing: set<Step>): Effect<Transaction> {
    if user.None? then Effect(Threw(NotAuthenticated), s)
    else
      var found := UserWallet(s.wallets, user.value);
      if WalletLookup in failing || found.None? then Effect(Threw(WalletNotFound), s)
      else if TxInsert in failing then Effect(Threw(StoreFailure), s)
      else
        var row := NewRow(data, s.nextId, found.value.id, user.value, now);
        var inserted := s.(transactions := s.transactions + [row], nextId := s.nextId + 1);
        if !MovesWallet(data) then Effect(Returned(row), inserted)
        else
          var b := Rebalance(inserted, found.value.id, data.amount, TypeName(data.txType), now, failing);
          if b.out.Threw? then Effect(Threw(b.out.message), b.after) else Effect(Returned(row), b.after)
  }

  /** deleteTransaction gets past its fetch and its delete. */
  predicate Deletes(s: Store, user: Option<Id>, id: Id, failing: set<Step>) {
    user.Some? && TxFetch !in failing && |OwnedRows(s.transactions, id, user.value)| == 1 && TxDelete !in failing
  }

  /** deleteTransaction. */
  function Delete(s: Store, user: Option<Id>, id: Id, now: Timestamp, failing: set<Step>): Effect<bool> {
    if user.None? then Effect(Threw(NotAuthenticated), s)
    else
      var fetched := Single(OwnedRows(s.transactions, id, user.value));
      if TxFetch in failing || fetched.None? then Effect(Threw(StoreFailure), s)
      else if TxDelete in failing then Effect(Threw(StoreFailure), s)
      else
        var row := fetched.value;
        Settle(s.(transactions := DeleteOwned(s.transactions, id, user.value)), row, now, failing)
  }

  /** What deleteTransaction does once the row is gone: a successful row's
      effect is reversed on its wallet. */
  function Settle(removed: Store, row: Transaction, now: Timestamp, failing: set<Step>): Effect<bool> {
    if row.status != "success" then Effect(Returned(true), removed)
    else
      var b := Rebalance(removed, row.walletId, -row.amount, TypeName(row.txType), now, failing);
      if b.out.Threw? then Effect(Threw(b.out.message), b.after) else Effect(Returned(true), b.after)
  }

  /** updateTransaction: `.update(patch)...select().single()` returns the
      updated row, and rejects, leaving the table as it was, when the
      filter does not match exactly one row. */
  function Update(s: Store, user: Option<Id>, id: Id, patch: TxPatch, failing: set<Step>): Effect<Transaction> {
    if user.None? then Effect(Threw(NotAuthenticated), s)
    else
      var matched := OwnedRows(s.transactions, id, user.value);
      if TxUpdate in failing || |matched| != 1 then Effect(Threw(StoreFailure), s)
      else Effect(Returned(Patched(matched[0], patch)), s.(transactions := PatchOwned(s.transactions, id, user.value, patch)))
  }

  // ---- the handlers as methods on the store object ----

  /** updateWalletBalance: read the wallet by id, move its totals by the
      effect of `typeName`, write balance, round-up total and date back. */
  method UpdateWalletBalance(db: Db, walletId: Id, amount: Paise, typeName: string, now: Timestamp, failing: set<Step>)
    returns (r: Outcome<()>)
    modifies db
    ensures var e := Rebalance(old(db.Snapshot()), walletId, amount, typeName, now, failing);
      r == e.out && db.Snapshot() == e.after
  {
    var found := WalletById(db.wallets, walletId);
    if BalanceFetch in failing || found.None? {
      return Threw(WalletNotFound);
    }
    var totals := ApplyEffect(TotalsOf(found.value), amount, typeName);
    if BalanceUpdate in failing {
      return Threw(StoreFailure);
    }
    db.wallets := SetTotals(db.wallets, walletId, totals, now);
    return Returned(());
  }

  /** createTransaction: look up the user's wallet, insert the row, and for
      a success (or omitted) status move the wallet by the row's type. */
  method CreateTransaction(db: Db, user: Option<Id>, data: CreateData, now: Timestamp, failing: set<Step>)
    returns (r: Outcome<Transaction>)
    requires db.Valid()
    modifies db
    ensures db.Valid()
    ensures var e := Create(old(db.Snapshot()), user, data, now, failing);
      r == e.out && db.Snapshot() == e.after
  {
    CreateKeepsWellFormed(db.Snapshot(), user, data, now, failing);
    if user.None? {
      return Threw(NotAuthenticated);
    }
    var uid := user.value;
    var found := UserWallet(db.wallets, uid);
    if WalletLookup in failing || found.None? {
      return Threw(WalletNotFound);
    }
    var w := found.value;
    if TxInsert in failing {
      return Threw(StoreFailure);
    }
    var id := db.FreshId();
    var row := NewRow(data, id, w.id, uid, now);
    db.transactions := db.transactions + [row];
    if MovesWallet(data) {
      var u := UpdateWalletBalance(db, w.id, data.amount, TypeName(data.txType), now, failing);
      if u.Threw? {
        return Threw(u.message);
      }
    }
    return Returned(row);
  }

  /** The rows fetchTransactions lists for a user: all of them newest
      first, cut to the first `limit` when a non-zero limit is given. */
  function NewestOfUser(txs: seq<Transaction>, uid: Id, limit: Option<nat>): seq<Transaction> {
    var sorted := Seqs.SortDesc(TxsOfUser(txs, uid), CreatedAt);
    if limit.Some? && limit.value != 0 then Seqs.Take(sorted, limit.value) else sorted
  }

  /** Every listed row is a stored row of the user. */
  lemma NewestOfUserRows(txs: seq<Transaction>, uid: Id, limit: Option<nat>)
    ensures var rows := NewestOfUser(txs, uid, limit);
      forall k :: 0 <= k < |rows| ==> rows[k].userId == Some(uid) && rows[k] in txs
  {
    var mine := TxsOfUser(txs, uid);
    TxsOfUserRows(txs, uid);
    var sorted := Seqs.SortDesc(mine, CreatedAt);
    var rows := NewestOfUser(txs, uid, limit);
    forall k | 0 <= k < |rows|
      ensures rows[k].userId == Some(uid) && rows[k] in txs
    {
      assert rows[k] == sorted[k];
      assert sorted[k] in multiset(mine);
    }
  }

  /** The listing is ordered newest first, takes each of the user's rows at
      most once (all of them without a limit), and leaves out no row newer
      than a listed one. */
  lemma NewestOfUserOrder(txs: seq<Transaction>, uid: Id, limit: Option<nat>)
    ensures var mine, rows := TxsOfUser(txs, uid), NewestOfUser(txs, uid, limit);
      && Seqs.SortedDesc(rows, CreatedAt)
      && multiset(rows) <= multiset(mine)
      && ((limit.None? || limit == Some(0)) ==> multiset(rows) == multiset(mine))
      && forall t :: t in multiset(mine) - multiset(rows) ==>
           forall j :: 0 <= j < |rows| ==> CreatedAt(t) <= CreatedAt(rows[j])
  {
    var mine := TxsOfUser(txs, uid);
    if limit.Some? && limit.value != 0 {
      Seqs.TakeSorted(mine, limit.value, CreatedAt);
    } else {
      assert multiset(mine) - multiset(NewestOfUser(txs, uid, limit)) == multiset{};
    }
  }

  /** fetchTransactions: the user's rows, newest first, the first `limit`
      of them when a non-zero limit is given: each listed row is a distinct
      row of the user, and no row left out is newer than a listed one. */
  method FetchTransactions(db: Db, user: Option<Id>, limit: Option<nat>, failing: set<Step>)
    returns (r: Outcome<seq<Transaction>>)
    ensures user.None? ==> r == Threw(NotAuthenticated)
    ensures user.Some? && TxList in failing ==> r == Threw(StoreFailure)
    ensures r.Returned? <==> user.Some? && TxList !in failing
    ensures r.Returned? ==> Seqs.SortedDesc(r.value, CreatedAt)
    ensures r.Returned? ==> forall k :: 0 <= k < |r.value| ==>
      r.value[k].userId == Some(user.value) && r.value[k] in db.transactions
    ensures r.Returned? && (limit.None? || limit == Some(0)) ==>
      multiset(r.value) == multiset(TxsOfUser(db.transactions, user.value))
    ensures r.Returned? ==> multiset(r.value) <= multiset(TxsOfUser(db.transactions, user.value))
    ensures r.Returned? && limit.Some? && limit.value > 0 ==>
      |r.value| == if |TxsOfUser(db.transactions, user.value)| <= limit.value then |TxsOfUser(db.transactions, user.value)| else limit.value
    ensures r.Returned? ==>
      forall t :: t in multiset(TxsOfUser(db.transactions, user.value)) - multiset(r.value) ==>
        forall j :: 0 <= j < |r.value| ==> CreatedAt(t) <= CreatedAt(r.value[j])
  {
    if user.None? {
      return Threw(NotAuthenticated);
    }
    if TxList in failing {
      return Threw(StoreFailure);
    }
    var rows := NewestOfUser(db.transactions, user.value, limit);
    NewestOfUserRows(db.transactions, user.value, limit);
    NewestOfUserOrder(db.transactions, user.value, limit);
    return Returned(rows);
  }

  /** updateTransaction: rewrite the filtered row with the patch and return
      it. The wallet is not touched. */
  method UpdateTransaction(db: Db, user: Option<Id>, id: Id, patch: TxPatch, failing: set<Step>)
    returns (r: Outcome<Transaction>)
    requires db.Valid()
    modifies db
    ensures db.Valid()
    ensures var e := Update(old(db.Snapshot()), user, id, patch, failing);
      r == e.out && db.Snapshot() == e.after
  {
    UpdateKeepsWellFormed(db.Snapshot(), user, id, patch, failing);
    if user.None? {
      return Threw(NotAuthenticated);
    }
    var uid := user.value;
    var matched := OwnedRows(db.transactions, id, uid);
    if TxUpdate in failing || |matched| != 1 {
      return Threw(StoreFailure);
    }
    db.transactions := PatchOwned(db.transactions, id, uid, patch);
    return Returned(Patched(matched[0], patch));
  }

  /** deleteTransaction: fetch the row, delete it, then, if its status was
      success, apply its type with the negated amount to its wallet. */
  method DeleteTransaction(db: Db, user: Option<Id>, id: Id, now: Timestamp, failing: set<Step>)
    returns (r: Outcome<bool>)
    requires db.Valid()
    modifies db
    ensures db.Valid()
    ensures var e := Delete(old(db.Snapshot()), user, id, now, failing);
      r == e.out && db.Snapshot() == e.after
  {
    DeleteKeepsWellFormed(db.Snapshot(), user, id, now, failing);
    if user.None? {
      return Threw(NotAuthenticated);
    }
    var uid := user.value;
    var fetched := Single(OwnedRows(db.transactions, id, uid));
    if TxFetch in failing || fetched.None? {
      return Threw(StoreFailure);
    }
    if TxDelete in failing {
      return Threw(StoreFailure);
    }
    var row := fetched.value;
    db.transactions := DeleteOwned(db.transactions, id, uid);
    r := SettleDeletion(db, row, now, failing);
  }

  method SettleDeletion(db: Db, row: Transaction, now: Timestamp, failing: set<Step>) returns (r: Outcome<bool>)
    modifies db
    ensures var e := Settle(old(db.Snapshot()), row, now, failing);
      r == e.out && db.Snapshot() == e.after
  {
    if row.status == "success" {
      var u := UpdateWalletBalance(db, row.walletId, -row.amount, TypeName(row.txType), now, failing);
      if u.Threw? {
        return Threw(u.message);
      }
    }
    return Returned(true);
  }

  // ---- well-formedness ----

  lemma RebalanceKeepsWellFormed(s: Store, walletId: Id, amount: Paise, typeName: string, now: Timestamp, failing: set<Step>)
    requires WellFormed(s)
    ensures WellFormed(Rebalance(s, walletId, amount, typeName, now, failing).after)
  {
    var found := WalletById(s.wallets, walletId);
    if BalanceFetch !in failing && found.Some? && BalanceUpdate !in failing {
      SetTotalsKeepsIds(s.wallets, walletId, ApplyEffect(TotalsOf(found.value), amount, typeName), now, s.nextId);
    }
  }

  lemma CreateKeepsWellFormed(s: Store, user: Option<Id>, data: CreateData, now: Timestamp, failing: set<Step>)
    requires WellFormed(s)
    ensures WellFormed(Create(s, user, data, now, failing).after)
  {
    if Inserts(s, user, failing) {
      var k := UserWalletIsRow(s.wallets, user.value);
      var w := s.wallets[k];
      var row := NewRow(data, s.nextId, w.id, user.value, now);
      var inserted := s.(transactions := s.transactions + [row], nextId := s.nextId + 1);
      assert WellFormed(inserted);
      RebalanceKeepsWellFormed(inserted, w.id, data.amount, TypeName(data.txType), now, failing);
    }
  }

  lemma DeleteKeepsWellFormed(s: Store, user: Option<Id>, id: Id, now: Timestamp, failing: set<Step>)
    requires WellFormed(s)
    ensures WellFormed(Delete(s, user, id, now, failing).after)
  {
    if Deletes(s, user, id, failing) {
      var i := OwnedRowUnique(s.transactions, id, user.value);
      var row := s.transactions[i];
      RemovalKeepsBelow(s.transactions, i, s.nextId);
      var removed := s.(transactions := DeleteOwned(s.transactions, id, user.value));
      RebalanceKeepsWellFormed(removed, row.walletId, -row.amount, TypeName(row.txType), now, failing);
    }
  }

  lemma UpdateKeepsWellFormed(s: Store, user: Option<Id>, id: Id, patch: TxPatch, failing: set<Step>)
    requires WellFormed(s)
    ensures WellFormed(Update(s, user, id, patch, failing).after)
  {
    if user.Some? && TxUpdate !in failing && |OwnedRows(s.transactions, id, user.value)| == 1 {
      var i := PatchedRowUnique(s.transactions, id, user.value, patch);
      EditKeepsBelow(s.transactions, i, patch, s.nextId);
    }
  }

  // ---- what the handlers guarantee ----

  /** updateWalletBalance throws "Wallet not found" when its read fails or
      does not find exactly one wallet, and the store's error when its write
      fails, changing nothing in both cases; otherwise it moves the wallet
      with that id, and no other, by the effect of typeName and stamps it
      with now. */
  lemma RebalanceOutcome(s: Store, walletId: Id, amount: Paise, typeName: string, now: Timestamp, failing: set<Step>)
    ensures var e := Rebalance(s, walletId, amount, typeName, now, failing);
      && (BalanceFetch in failing || WalletById(s.wallets, walletId).None? ==> e.out == Threw(WalletNotFound))
      && (e.out.Returned? <==>
            BalanceFetch !in failing && BalanceUpdate !in failing && WalletById(s.wallets, walletId).Some?)
      && (e.out.Threw? ==> e.after == s)
      && (e.out.Returned? ==>
            && e.after == s.(wallets := e.after.wallets)
            && |e.after.wallets| == |s.wallets|
            && forall k :: 0 <= k < |s.wallets| ==>
                 e.after.wallets[k] ==
                   if s.wallets[k].id == walletId
                   then WithTotals(s.wallets[k], ApplyEffect(TotalsOf(s.wallets[k]), amount, typeName), now)
                   else s.wallets[k])
  {
    var e := Rebalance(s, walletId, amount, typeName, now, failing);
    if e.out.Returned? {
      var j := FoundWalletIsRow(s.wallets, walletId);
    }
  }

  /** createTransaction throws before writing anything when the user is
      signed out, the wallet lookup fails or finds no single wallet, or the
      insert fails. Once the row is inserted it stays, with the next id, the
      user's wallet and the defaults of NewRow; the call then returns the
      row exactly when the wallet needs no move or its move succeeds, and
      the move adds the row's contribution to that wallet. */
  lemma CreateOutcome(s: Store, user: Option<Id>, data: CreateData, now: Timestamp, failing: set<Step>)
    requires DistinctWalletIds(s.wallets)
    ensures var e := Create(s, user, data, now, failing);
      && (user.None? ==> e == Effect(Threw(NotAuthenticated), s))
      && (user.Some? && (WalletLookup in failing || UserWallet(s.wallets, user.value).None?) ==>
            e == Effect(Threw(WalletNotFound), s))
      && (user.Some? && WalletLookup !in failing && UserWallet(s.wallets, user.value).Some? && TxInsert in failing ==>
            e == Effect(Threw(StoreFailure), s))
    ensures Inserts(s, user, failing) ==>
      var e := Create(s, user, data, now, failing);
      var w := UserWallet(s.wallets, user.value).value;
      var row := NewRow(data, s.nextId, w.id, user.value, now);
      && e.after.transactions == s.transactions + [row]
      && e.after.nextId == s.nextId + 1
      && e.after.paymentIntents == s.paymentIntents && e.after.eduScores == s.eduScores
      && (e.out.Returned? <==> !MovesWallet(data) || (BalanceFetch !in failing && BalanceUpdate !in failing))
      && (e.out.Returned? ==> e.out.value == row)
      && (MovesWallet(data) && e.out.Returned? ==>
            e.after.wallets == SetTotals(s.wallets, w.id, Plus(TotalsOf(w), Contribution(row, w.id)), now))
      && (!MovesWallet(data) || e.out.Threw? ==> e.after.wallets == s.wallets)
  {
    if Inserts(s, user, failing) {
      var k := UserWalletIsRow(s.wallets, user.value);
      WalletByIdFinds(s.wallets, k);
      ParseTypeName(data.txType);
    }
  }

  /** A createTransaction that returns keeps every wallet equal to the fold
      of its successful rows. */
  lemma CreateKeepsConsistency(s: Store, user: Option<Id>, data: CreateData, now: Timestamp, failing: set<Step>)
    requires DistinctWalletIds(s.wallets) && Consistent(s.wallets, s.transactions)
    ensures var e := Create(s, user, data, now, failing);
      e.out.Returned? ==> Consistent(e.after.wallets, e.after.transactions)
  {
    CreateOutcome(s, user, data, now, failing);
    var e := Create(s, user, data, now, failing);
    if Inserts(s, user, failing) && e.out.Returned? {
      var k := UserWalletIsRow(s.wallets, user.value);
      var w := s.wallets[k];
      var row := NewRow(data, s.nextId, w.id, user.value, now);
      if MovesWallet(data) {
        assert TotalsOf(w) == Replay(s.transactions, w.id);
        CreditPreservesConsistency(s.wallets, s.transactions, row, now);
      } else {
        InertAppendPreservesConsistency(s.wallets, s.transactions, row);
      }
    }
  }

  /** createTransaction is not atomic: when the row is inserted but the
      wallet update then fails, the call throws with the row left in the
      history and the wallet unmoved, and the store is no longer consistent. */
  lemma CreateHalfDoneBreaksConsistency(s: Store, user: Option<Id>, data: CreateData, now: Timestamp, failing: set<Step>)
    requires DistinctWalletIds(s.wallets) && Consistent(s.wallets, s.transactions)
    requires Inserts(s, user, failing) && MovesWallet(data)
    requires BalanceFetch in failing || BalanceUpdate in failing
    requires Delta(data.txType, data.amount) != Zero
    ensures var e := Create(s, user, data, now, failing);
      e.out.Threw? && |e.after.transactions| == |s.transactions| + 1 && !Consistent(e.after.wallets, e.after.transactions)
  {
    CreateOutcome(s, user, data, now, failing);
    var k := UserWalletIsRow(s.wallets, user.value);
    var w := s.wallets[k];
    var row := NewRow(data, s.nextId, w.id, user.value, now);
    ReplayAppend(s.transactions, row, w.id);
    assert Contribution(row, w.id) == Delta(data.txType, data.amount);
    PlusMoves(Replay(s.transactions, w.id), Contribution(row, w.id));
    assert TotalsOf(w) != Replay(s.transactions + [row], w.id);
  }

  /** deleteTransaction throws before writing anything when the user is
      signed out, or the fetch fails or does not find exactly one row of the
      user with that id, or the delete fails. Otherwise it removes exactly
      that row; for a non-successful row it then returns true with the
      wallets as they were, and for a successful one it returns true exactly
      when the wallet exists and its update succeeds, taking the row's
      contribution back out of that wallet. */
  lemma DeleteOutcome(s: Store, user: Option<Id>, id: Id, now: Timestamp, failing: set<Step>)
    ensures var e := Delete(s, user, id, now, failing);
      && (user.None? ==> e == Effect(Threw(NotAuthenticated), s))
      && (user.Some? && !Deletes(s, user, id, failing) ==> e == Effect(Threw(StoreFailure), s))
      && (e.out.Returned? ==> e.out.value)
      && (e.out.Threw? ==> e.after.wallets == s.wallets)
    ensures Deletes(s, user, id, failing) ==>
      var e := Delete(s, user, id, now, failing);
      var i := OwnedIndex(s.transactions, id, user.value);
      && 0 <= i < |s.transactions| && OwnedRow(s.transactions[i], id, user.value)
      && e.after.transactions == s.transactions[..i] + s.transactions[i + 1..]
      && e.after.nextId == s.nextId && e.after.paymentIntents == s.paymentIntents && e.after.eduScores == s.eduScores
      && (!Succeeded(s.transactions[i]) ==> e.out.Returned? && e.after.wallets == s.wallets)
      && (Succeeded(s.transactions[i]) ==>
            (e.out.Returned? <==>
               BalanceFetch !in failing && BalanceUpdate !in failing && WalletById(s.wallets, s.transactions[i].walletId).Some?))
      && (Succeeded(s.transactions[i]) && e.out.Returned? ==>
            var t := s.transactions[i];
            e.after.wallets ==
              SetTotals(s.wallets, t.walletId, Minus(TotalsOf(WalletById(s.wallets, t.walletId).value), Contribution(t, t.walletId)), now))
  {
    if Deletes(s, user, id, failing) {
      var i := OwnedRowUnique(s.transactions, id, user.value);
      var t := s.transactions[i];
      assert Single(OwnedRows(s.transactions, id, user.value)) == Some(t);
      var removed := s.(transactions := DeleteOwned(s.transactions, id, user.value));
      assert removed.transactions == s.transactions[..i] + s.transactions[i + 1..];
      if Succeeded(t) && WalletById(s.wallets, t.walletId).Some? {
        var before := TotalsOf(WalletById(s.wallets, t.walletId).value);
        ParseTypeName(t.txType);
        DeltaNegate(t.txType, t.amount);
        assert ApplyEffect(before, -t.amount, TypeName(t.txType)) == Minus(before, Contribution(t, t.walletId));
      }
    }
  }

  /** A deleteTransaction that returns keeps every wallet equal to the fold
      of its successful rows. */
  lemma DeleteKeepsConsistency(s: Store, user: Option<Id>, id: Id, now: Timestamp, failing: set<Step>)
    requires Consistent(s.wallets, s.transactions)
    ensures var e := Delete(s, user, id, now, failing);
      e.out.Returned? ==> Consistent(e.after.wallets, e.after.transactions)
  {
    DeleteOutcome(s, user, id, now, failing);
    var e := Delete(s, user, id, now, failing);
    if Deletes(s, user, id, failing) && e.out.Returned? {
      var i := OwnedRowUnique(s.transactions, id, user.value);
      var t := s.transactions[i];
      if Succeeded(t) {
        var k := FoundWalletIsRow(s.wallets, t.walletId);
        assert TotalsOf(s.wallets[k]) == Replay(s.transactions, t.walletId);
        RemovalPreservesConsistency(s.wallets, s.transactions, i, now);
      } else {
        InertRemovalPreservesConsistency(s.wallets, s.transactions, i);
      }
    }
  }

  /** updateTransaction throws, changing nothing, when the user is signed
      out, the update fails, or the filter does not match exactly one row.
      Otherwise it rewrites that one row with the patch, in place, returns
      the rewritten row, and touches nothing else. */
  lemma UpdateOutcome(s: Store, user: Option<Id>, id: Id, patch: TxPatch, failing: set<Step>)
    ensures var e := Update(s, user, id, patch, failing);
      && (user.None? ==> e == Effect(Threw(NotAuthenticated), s))
      && (user.Some? && (TxUpdate in failing || |OwnedRows(s.transactions, id, user.value)| != 1) ==>
            e == Effect(Threw(StoreFailure), s))
      && (e.out.Returned? <==> user.Some? && TxUpdate !in failing && |OwnedRows(s.transactions, id, user.value)| == 1)
      && (e.out.Returned? ==>
            var i := OwnedIndex(s.transactions, id, user.value);
            && 0 <= i < |s.transactions| && OwnedRow(s.transactions[i], id, user.value)
            && e.out.value == Patched(s.transactions[i], patch)
            && e.after == s.(transactions := s.transactions[i := e.out.value])
            && OwnedRows(e.after.transactions, id, user.value) == [e.out.value])
  {
    if user.Some? && TxUpdate !in failing && |OwnedRows(s.transactions, id, user.value)| == 1 {
      var i := OwnedRowUnique(s.transactions, id, user.value);
      var j := PatchedRowUnique(s.transactions, id, user.value, patch);
    }
  }

  /** updateTransaction never moves a wallet, so starting from a consistent
      store the result is consistent exactly when the patch leaves what the
      row contributes to every wallet as it was. */
  lemma UpdateConsistency(s: Store, user: Option<Id>, id: Id, patch: TxPatch, failing: set<Step>)
    requires Consistent(s.wallets, s.transactions)
    ensures var e := Update(s, user, id, patch, failing);
      e.out.Returned? ==>
        var i := OwnedIndex(s.transactions, id, user.value);
        && 0 <= i < |s.transactions|
        && (Consistent(e.after.wallets, e.after.transactions) <==>
              forall k :: 0 <= k < |s.wallets| ==>
                Contribution(e.out.value, s.wallets[k].id) == Contribution(s.transactions[i], s.wallets[k].id))
  {
    UpdateOutcome(s, user, id, patch, failing);
    var e := Update(s, user, id, patch, failing);
    if e.out.Returned? {
      EditConsistency(s.wallets, s.transactions, OwnedIndex(s.transactions, id, user.value), e.out.value);
    }
  }

  /** Creating a transaction and then deleting it, both returning, restores
      the transactions table and every wallet's totals; only the touched
      wallet's last_transaction_date moves. */
  lemma CreateThenDeleteRestores(s: Store, user: Option<Id>, data: CreateData, created: Timestamp, deleted: Timestamp, failing: set<Step>)
    requires WellFormed(s)
    ensures var c := Create(s, user, data, created, failing);
      c.out.Returned? ==>
        var d := Delete(c.after, user, c.out.value.id, deleted, failing);
        d.out.Returned? ==>
          && d.after.transactions == s.transactions
          && |d.after.wallets| == |s.wallets|
          && forall k :: 0 <= k < |s.wallets| ==>
               d.after.wallets[k] == s.wallets[k] || d.after.wallets[k] == s.wallets[k].(lastTransactionDate := deleted)
  {
    CreateOutcome(s, user, data, created, failing);
    var c := Create(s, user, data, created, failing);
    if c.out.Returned? {
      var row := c.out.value;
      var k := UserWalletIsRow(s.wallets, user.value);
      var w := s.wallets[k];
      AppendedRowOwned(s.transactions, row, s.nextId, user.value);
      DeleteOutcome(c.after, user, row.id, deleted, failing);
      var d := Delete(c.after, user, row.id, deleted, failing);
      if d.out.Returned? {
        var txs := c.after.transactions;
        assert txs[..|s.transactions|] + txs[|s.transactions| + 1..] == s.transactions;
        if Succeeded(row) {
          var ws1 := c.after.wallets;
          assert forall j :: 0 <= j < |ws1| ==> ws1[j].id == s.wallets[j].id;
          WalletByIdFinds(ws1, k);
          MinusUndoesPlus(TotalsOf(w), Contribution(row, w.id));
          forall j | 0 <= j < |s.wallets|
            ensures d.after.wallets[j] == s.wallets[j] || d.after.wallets[j] == s.wallets[j].(lastTransactionDate := deleted)
          {
            if j != k {
              assert s.wallets[j].id != w.id;
            }
          }
        }
      }
    }
  }
}
