/** The change-event applier of the mirror (POST /supabase in
    backend/routes/webhookRoutes.js): a change to a row of the primary
    store's wallets, transactions or edu_scores table is copied into the
    mirror. Wallet and learning-score changes upsert or delete a document;
    transaction changes upsert or delete an entry of the parent wallet's
    embedded array and never touch the wallet's aggregates. Those changes
    end in `wallet.save()`, which checks the schema's `min: 0` on the
    balance (backend/models/Wallet.js); the wallet upsert uses
    `findOneAndUpdate`, which checks nothing, so a negative balance copied
    from the primary store makes every later transaction change of that
    wallet fail with 500.

    The record of an event is a row of the table it names; a record the
    event does not carry is None, and reading a field of it throws. */
module MirrorSync {
  import opened Common
  import opened WalletTypes
  import Supabase
  import opened Mirror
  import Seqs
  import MirrorWalletRoutes

  /** The payload's `table`, `type`, `record` and `old_record`. */
  datatype ChangeEvent =
    | WalletChange(kind: string, walletRecord: Option<Supabase.WalletRow>, walletOld: Option<Supabase.WalletRow>)
    | TransactionChange(kind: string, txRecord: Option<Transaction>, txOld: Option<Transaction>)
    | EduChange(kind: string, eduRecord: Option<Supabase.EduScoreRow>, eduOld: Option<Supabase.EduScoreRow>)
    | OtherTable(table: string, kind: string)

  const ProcessingFailed := "Error processing webhook"
  const NullRecord := "record is null"

  /** 200 'Webhook received and processed', or 500 with the error. */
  datatype SyncReply = Processed | SyncFailed(message: string, error: string)

  function StatusOf(r: SyncReply): nat {
    if r.Processed? then 200 else 500
  }

  predicate IsWrite(kind: string) {
    kind == "INSERT" || kind == "UPDATE"
  }

  // ---- wallets ----

  /** `findOneAndUpdate({ id }, fields, { upsert: true })`: the first wallet
      with the record's id gets exactly the five copied fields and keeps
      its embedded entries; without one, a new wallet with no entries is
      added. */
  function UpsertWallet(ws: seq<MirrorWallet>, r: Supabase.WalletRow): seq<MirrorWallet> {
    var k := WalletWithId(ws, r.id);
    if k >= 0 then
      ws[k := ws[k].(userId := r.userId, balance := r.balance, roundupTotal := r.roundupTotal,
                     rewardsEarned := r.rewardsEarned, lastTransactionDate := Some(r.lastTransactionDate))]
    else ws + [MirrorWallet(r.id, r.userId, r.balance, r.roundupTotal, r.rewardsEarned, Some(r.lastTransactionDate), [])]
  }

  /** The upserted wallet sits at the record's id, in the old place or at
      the end, and every other wallet is unchanged; distinct ids stay
      distinct. */
  lemma UpsertWalletShape(ws: seq<MirrorWallet>, r: Supabase.WalletRow)
    ensures var u := UpsertWallet(ws, r);
      var k := WalletWithId(ws, r.id);
      var i := if k >= 0 then k else |ws|;
      && |u| == (if k >= 0 then |ws| else |ws| + 1)
      && WalletWithId(u, r.id) == i
      && u[i] == MirrorWallet(r.id, r.userId, r.balance, r.roundupTotal, r.rewardsEarned, Some(r.lastTransactionDate),
                              if k >= 0 then ws[k].transactions else [])
      && (forall j :: 0 <= j < |ws| && j != i ==> u[j] == ws[j])
      && (DistinctWalletIds(ws) ==> DistinctWalletIds(u))
  {
    var u := UpsertWallet(ws, r);
    var k := WalletWithId(ws, r.id);
    if k < 0 {
      assert forall j :: 0 <= j < |ws| ==> u[j] == ws[j];
      assert u[|ws|].id == r.id;
      assert forall j :: 0 <= j < |ws| ==> u[j].id != r.id;
    } else {
      assert forall j :: 0 <= j < |ws| ==> u[j].id == ws[j].id;
    }
  }

  // ---- embedded entries ----

  /** The entry mirrored from a transaction row: status is not copied. */
  function EntryOf(r: Transaction): (e: MirrorEntry)
    ensures e.id == r.id && e.walletId == r.walletId && e.amount == r.amount && e.status.None?
  {
    MirrorEntry(r.id, TypeName(r.txType), r.amount, Some(r.description), Some(r.createdAt), r.walletId, None)
  }

  /** The query `t.id === id`, and its negation, as predicates. */
  function SameId(id: Id): MirrorEntry -> bool {
    (t: MirrorEntry) => t.id == id
  }

  function OtherId(id: Id): MirrorEntry -> bool {
    (t: MirrorEntry) => t.id != id
  }

  /** `findIndex` by id, then assignment at that index or `push`. */
  function UpsertEntry(txs: seq<MirrorEntry>, e: MirrorEntry): seq<MirrorEntry> {
    var i := Seqs.FirstIndex(txs, SameId(e.id));
    if i >= 0 then txs[i := e] else txs + [e]
  }

  /** `filter(t => t.id !== id)`. */
  function RemoveEntries(txs: seq<MirrorEntry>, id: Id): seq<MirrorEntry> {
    Seqs.Filter(txs, OtherId(id))
  }

  /** Replace-or-append: the first entry with the id is replaced and every
      other entry is unchanged; without one, the entry is appended. */
  lemma UpsertEntryShape(txs: seq<MirrorEntry>, e: MirrorEntry)
    ensures var r := UpsertEntry(txs, e);
      var i := Seqs.FirstIndex(txs, SameId(e.id));
      && (i >= 0 ==> |r| == |txs| && r[i] == e && forall k :: 0 <= k < |txs| && k != i ==> r[k] == txs[k])
      && (i < 0 ==> r == txs + [e] && forall k :: 0 <= k < |txs| ==> txs[k].id != e.id)
      && e in r
  {
  }

  /** Applying the same entry twice is applying it once. */
  lemma UpsertEntryIdempotent(txs: seq<MirrorEntry>, e: MirrorEntry)
    ensures UpsertEntry(UpsertEntry(txs, e), e) == UpsertEntry(txs, e)
  {
    var p := SameId(e.id);
    var r := UpsertEntry(txs, e);
    var i := Seqs.FirstIndex(txs, p);
    var j := Seqs.FirstIndex(r, p);
    if i >= 0 {
      assert p(r[i]);
      assert forall k :: 0 <= k < i ==> r[k] == txs[k] && !p(r[k]);
      assert j == i;
    } else {
      assert p(r[|txs|]);
      assert forall k :: 0 <= k < |txs| ==> r[k] == txs[k] && !p(r[k]);
      assert j == |txs|;
      assert r[|txs| := e] == r;
    }
  }

  /** Filter-delete: no entry with the id is left, every entry with another
      id stays, and the survivors keep their order (removal distributes
      over concatenation). Deleting twice is deleting once. */
  lemma RemoveEntriesShape(txs: seq<MirrorEntry>, more: seq<MirrorEntry>, id: Id)
    ensures var r := RemoveEntries(txs, id);
      && (forall k :: 0 <= k < |r| ==> r[k].id != id && r[k] in txs)
      && (forall k :: 0 <= k < |txs| && txs[k].id != id ==> txs[k] in r)
      && RemoveEntries(txs + more, id) == r + RemoveEntries(more, id)
      && RemoveEntries(r, id) == r
  {
    var p := OtherId(id);
    Seqs.FilterMembers(txs, p);
    Seqs.FilterAppend(txs, more, p);
    Seqs.FilterIdempotent(txs, p);
  }

  /** A delete after an upsert of the same id leaves what the delete alone
      would. */
  lemma RemoveAfterUpsert(txs: seq<MirrorEntry>, e: MirrorEntry)
    ensures RemoveEntries(UpsertEntry(txs, e), e.id) == RemoveEntries(txs, e.id)
  {
    var p := OtherId(e.id);
    var i := Seqs.FirstIndex(txs, SameId(e.id));
    if i >= 0 {
      Seqs.FilterUpdateDropped(txs, i, e, p);
    } else {
      Seqs.FilterAppend(txs, [e], p);
      assert Seqs.Filter([e], p) == [];
    }
  }

  // ---- learning scores ----

  /** `findOneAndUpdate({ user_id }, fields, { upsert: true })`. */
  function UpsertEdu(es: seq<MirrorEdu>, r: Supabase.EduScoreRow): seq<MirrorEdu> {
    var k := EduOfUser(es, r.userId);
    if k >= 0 then es[k := es[k].(score := r.score, completedLessons := r.completedLessons, lastUpdated := r.lastUpdated)]
    else es + [MirrorEdu(r.userId, r.score, r.completedLessons, r.lastUpdated)]
  }

  /** The upserted record sits at the user, in the old place or at the
      end, and every other record is unchanged; distinct users stay
      distinct. */
  lemma UpsertEduShape(es: seq<MirrorEdu>, r: Supabase.EduScoreRow)
    ensures var u := UpsertEdu(es, r);
      var k := EduOfUser(es, r.userId);
      var i := if k >= 0 then k else |es|;
      && |u| == (if k >= 0 then |es| else |es| + 1)
      && u[i] == MirrorEdu(r.userId, r.score, r.completedLessons, r.lastUpdated)
      && (forall j :: 0 <= j < |es| && j != i ==> u[j] == es[j])
      && (DistinctEduUsers(es) ==> DistinctEduUsers(u))
  {
    var u := UpsertEdu(es, r);
    var k := EduOfUser(es, r.userId);
    if k < 0 {
      assert forall j :: 0 <= j < |es| ==> u[j] == es[j];
    } else {
      assert forall j :: 0 <= j < |es| ==> u[j].userId == es[j].userId;
    }
  }

  lemma RemoveAtKeepsWalletIds(ws: seq<MirrorWallet>, i: int)
    requires DistinctWalletIds(ws)
    ensures DistinctWalletIds(RemoveAt(ws, i))
  {
  }

  lemma RemoveAtKeepsEduUsers(es: seq<MirrorEdu>, i: int)
    requires DistinctEduUsers(es)
    ensures DistinctEduUsers(RemoveAt(es, i))
  {
  }

  // ---- the applier ----

  function Failed(error: string): SyncReply {
    SyncFailed(ProcessingFailed, error)
  }

  function ApplyWallet(m: MirrorDocs, kind: string, record: Option<Supabase.WalletRow>, oldRecord: Option<Supabase.WalletRow>,
                       failing: set<MirrorStep>): Routed<SyncReply> {
    if IsWrite(kind) then
      if record.None? then Routed(Failed(NullRecord), m)
      else if Write in failing then Routed(Failed(StoreFailure), m)
      else Routed(Processed, m.(wallets := UpsertWallet(m.wallets, record.value)))
    else if kind == "DELETE" then
      if oldRecord.None? then Routed(Failed(NullRecord), m)
      else if Write in failing then Routed(Failed(StoreFailure), m)
      else Routed(Processed, m.(wallets := RemoveAt(m.wallets, WalletWithId(m.wallets, oldRecord.value.id))))
    else Routed(Processed, m)
  }

  /** The parent wallet's embedded entries replaced by `entries`. */
  function WithEntries(m: MirrorDocs, k: nat, entries: seq<MirrorEntry>): MirrorDocs
    requires k < |m.wallets|
  {
    m.(wallets := m.wallets[k := m.wallets[k].(transactions := entries)])
  }

  function ApplyTransaction(m: MirrorDocs, kind: string, record: Option<Transaction>, oldRecord: Option<Transaction>,
                            failing: set<MirrorStep>): Routed<SyncReply> {
    if IsWrite(kind) then
      if record.None? then Routed(Failed(NullRecord), m)
      else if Query in failing then Routed(Failed(StoreFailure), m)
      else
        var k := WalletWithId(m.wallets, record.value.walletId);
        if k < 0 then Routed(Processed, m)
        else if m.wallets[k].balance < 0 then Routed(Failed(MirrorWalletRoutes.WalletValidationFailed), m)
        else if Write in failing then Routed(Failed(StoreFailure), m)
        else Routed(Processed, WithEntries(m, k, UpsertEntry(m.wallets[k].transactions, EntryOf(record.value))))
    else if kind == "DELETE" then
      if oldRecord.None? then Routed(Failed(NullRecord), m)
      else if Query in failing then Routed(Failed(StoreFailure), m)
      else
        var k := WalletWithId(m.wallets, oldRecord.value.walletId);
        if k < 0 then Routed(Processed, m)
        else if m.wallets[k].balance < 0 then Routed(Failed(MirrorWalletRoutes.WalletValidationFailed), m)
        else if Write in failing then Routed(Failed(StoreFailure), m)
        else Routed(Processed, WithEntries(m, k, RemoveEntries(m.wallets[k].transactions, oldRecord.value.id)))
    else Routed(Processed, m)
  }

  function ApplyEdu(m: MirrorDocs, kind: string, record: Option<Supabase.EduScoreRow>, oldRecord: Option<Supabase.EduScoreRow>,
                    failing: set<MirrorStep>): Routed<SyncReply> {
    if IsWrite(kind) then
      if record.None? then Routed(Failed(NullRecord), m)
      else if Write in failing then Routed(Failed(StoreFailure), m)
      else Routed(Processed, m.(eduScores := UpsertEdu(m.eduScores, record.value)))
    else if kind == "DELETE" then
      if oldRecord.None? then Routed(Failed(NullRecord), m)
      else if Write in failing then Routed(Failed(StoreFailure), m)
      else Routed(Processed, m.(eduScores := RemoveAt(m.eduScores, EduOfUser(m.eduScores, oldRecord.value.userId))))
    else Routed(Processed, m)
  }

  /** POST /supabase: dispatch on the table, then on the change type. */
  function Apply(m: MirrorDocs, ev: ChangeEvent, failing: set<MirrorStep>): Routed<SyncReply> {
    match ev
    case WalletChange(kind, record, oldRecord) => ApplyWallet(m, kind, record, oldRecord, failing)
    case TransactionChange(kind, record, oldRecord) => ApplyTransaction(m, kind, record, oldRecord, failing)
    case EduChange(kind, record, oldRecord) => ApplyEdu(m, kind, record, oldRecord, failing)
    case OtherTable(_, _) => Routed(Processed, m)
  }

  // ---- the handler, updating the collections in place ----

  method SyncWallet(store: MirrorStore, kind: string, record: Option<Supabase.WalletRow>, oldRecord: Option<Supabase.WalletRow>,
                    failing: set<MirrorStep>) returns (reply: SyncReply)
    modifies store
    ensures var e := ApplyWallet(old(store.Snapshot()), kind, record, oldRecord, failing);
      reply == e.reply && store.Snapshot() == e.after
  {
    if IsWrite(kind) {
      if record.None? {
        return Failed(NullRecord);
      }
      if Write in failing {
        return Failed(StoreFailure);
      }
      var r := record.value;
      var k := WalletWithId(store.wallets, r.id);
      if k >= 0 {
        var w := store.wallets[k];
        w := w.(userId := r.userId, balance := r.balance, roundupTotal := r.roundupTotal);
        w := w.(rewardsEarned := r.rewardsEarned, lastTransactionDate := Some(r.lastTransactionDate));
        store.wallets := store.wallets[k := w];
      } else {
        store.wallets := store.wallets + [MirrorWallet(r.id, r.userId, r.balance, r.roundupTotal, r.rewardsEarned, Some(r.lastTransactionDate), [])];
      }
    } else if kind == "DELETE" {
      if oldRecord.None? {
        return Failed(NullRecord);
      }
      if Write in failing {
        return Failed(StoreFailure);
      }
      store.wallets := RemoveAt(store.wallets, WalletWithId(store.wallets, oldRecord.value.id));
    }
    reply := Processed;
  }

  method SyncTransaction(store: MirrorStore, kind: string, record: Option<Transaction>, oldRecord: Option<Transaction>,
                         failing: set<MirrorStep>) returns (reply: SyncReply)
    modifies store
    ensures var e := ApplyTransaction(old(store.Snapshot()), kind, record, oldRecord, failing);
      reply == e.reply && store.Snapshot() == e.after
  {
    if IsWrite(kind) {
      if record.None? {
        return Failed(NullRecord);
      }
      if Query in failing {
        return Failed(StoreFailure);
      }
      var r := record.value;
      var k := WalletWithId(store.wallets, r.walletId);
      if k >= 0 {
        var wallet := store.wallets[k];
        var existing := Seqs.FirstIndex(wallet.transactions, SameId(r.id));
        if existing > -1 {
          wallet := wallet.(transactions := wallet.transactions[existing := EntryOf(r)]);
        } else {
          wallet := wallet.(transactions := wallet.transactions + [EntryOf(r)]);
        }
        if wallet.balance < 0 {
          return Failed(MirrorWalletRoutes.WalletValidationFailed);
        }
        if Write in failing {
          return Failed(StoreFailure);
        }
        store.wallets := store.wallets[k := wallet];
      }
    } else if kind == "DELETE" {
      if oldRecord.None? {
        return Failed(NullRecord);
      }
      if Query in failing {
        return Failed(StoreFailure);
      }
      var k := WalletWithId(store.wallets, oldRecord.value.walletId);
      if k >= 0 {
        var wallet := store.wallets[k];
        wallet := wallet.(transactions := RemoveEntries(wallet.transactions, oldRecord.value.id));
        if wallet.balance < 0 {
          return Failed(MirrorWalletRoutes.WalletValidationFailed);
        }
        if Write in failing {
          return Failed(StoreFailure);
        }
        store.wallets := store.wallets[k := wallet];
      }
    }
    reply := Processed;
  }

  method SyncEdu(store: MirrorStore, kind: string, record: Option<Supabase.EduScoreRow>, oldRecord: Option<Supabase.EduScoreRow>,
                 failing: set<MirrorStep>) returns (reply: SyncReply)
    modifies store
    ensures var e := ApplyEdu(old(store.Snapshot()), kind, record, oldRecord, failing);
      reply == e.reply && store.Snapshot() == e.after
  {
    if IsWrite(kind) {
      if record.None? {
        return Failed(NullRecord);
      }
      if Write in failing {
        return Failed(StoreFailure);
      }
      store.eduScores := UpsertEdu(store.eduScores, record.value);
    } else if kind == "DELETE" {
      if oldRecord.None? {
        return Failed(NullRecord);
      }
      if Write in failing {
        return Failed(StoreFailure);
      }
      store.eduScores := RemoveAt(store.eduScores, EduOfUser(store.eduScores, oldRecord.value.userId));
    }
    reply := Processed;
  }

  method HandleChange(store: MirrorStore, ev: ChangeEvent, failing: set<MirrorStep>) returns (reply: SyncReply)
    modifies store
    ensures var e := Apply(old(store.Snapshot()), ev, failing);
      reply == e.reply && store.Snapshot() == e.after
  {
    match ev {
      case WalletChange(kind, record, oldRecord) =>
        reply := SyncWallet(store, kind, record, oldRecord, failing);
      case TransactionChange(kind, record, oldRecord) =>
        reply := SyncTransaction(store, kind, record, oldRecord, failing);
      case EduChange(kind, record, oldRecord) =>
        reply := SyncEdu(store, kind, record, oldRecord, failing);
      case OtherTable(_, _) =>
        reply := Processed;
    }
  }

  // ---- what the applier guarantees ----

  /** Other tables and change types other than INSERT, UPDATE and DELETE
      are answered 200 with nothing changed; so is a transaction change
      whose parent wallet is missing. */
  lemma IgnoredChanges(m: MirrorDocs, ev: ChangeEvent, failing: set<MirrorStep>)
    ensures ev.OtherTable? ==> Apply(m, ev, failing) == Routed(Processed, m)
    ensures !ev.OtherTable? && !IsWrite(ev.kind) && ev.kind != "DELETE" ==> Apply(m, ev, failing) == Routed(Processed, m)
    ensures ev.TransactionChange? && IsWrite(ev.kind) && ev.txRecord.Some? && Query !in failing
            && WalletWithId(m.wallets, ev.txRecord.value.walletId) < 0 ==>
      Apply(m, ev, failing) == Routed(Processed, m)
    ensures ev.TransactionChange? && ev.kind == "DELETE" && ev.txOld.Some? && Query !in failing
            && WalletWithId(m.wallets, ev.txOld.value.walletId) < 0 ==>
      Apply(m, ev, failing) == Routed(Processed, m)
  {
  }

  /** The event lacks the record its change type reads: `record` for an
      INSERT or UPDATE, `old_record` for a DELETE. */
  predicate MissingRecord(ev: ChangeEvent) {
    match ev
    case WalletChange(kind, r, o) => if IsWrite(kind) then r.None? else o.None?
    case TransactionChange(kind, r, o) => if IsWrite(kind) then r.None? else o.None?
    case EduChange(kind, r, o) => if IsWrite(kind) then r.None? else o.None?
    case OtherTable(_, _) => false
  }

  /** A transaction change whose parent wallet exists but holds a negative
      balance, which `wallet.save()` refuses. */
  predicate UnsavableParent(m: MirrorDocs, ev: ChangeEvent) {
    && ev.TransactionChange? && (IsWrite(ev.kind) || ev.kind == "DELETE") && !MissingRecord(ev)
    && var walletId := if IsWrite(ev.kind) then ev.txRecord.value.walletId else ev.txOld.value.walletId;
       var k := WalletWithId(m.wallets, walletId);
       k >= 0 && m.wallets[k].balance < 0
  }

  /** A refused event (500) changes nothing; with a working store, an
      INSERT, UPDATE or DELETE is refused exactly when its record is
      missing or, for a transaction change, when the parent wallet's
      balance is negative. */
  lemma FailureWritesNothing(m: MirrorDocs, ev: ChangeEvent, failing: set<MirrorStep>)
    ensures StatusOf(Apply(m, ev, failing).reply) == 500 ==> Apply(m, ev, failing).after == m
    ensures !ev.OtherTable? && (IsWrite(ev.kind) || ev.kind == "DELETE") && Query !in failing && Write !in failing ==>
      (StatusOf(Apply(m, ev, failing).reply) == 500 <==> MissingRecord(ev) || UnsavableParent(m, ev))
    ensures UnsavableParent(m, ev) && Query !in failing ==>
      Apply(m, ev, failing) == Routed(Failed(MirrorWalletRoutes.WalletValidationFailed), m)
  {
  }

  /** A wallet INSERT or UPDATE leaves, at the record's id, a wallet with
      exactly the five copied fields; an existing wallet keeps its
      embedded entries and its place, a new one is added with none. */
  lemma WalletUpsertOutcome(m: MirrorDocs, kind: string, r: Supabase.WalletRow, oldRecord: Option<Supabase.WalletRow>, failing: set<MirrorStep>)
    requires IsWrite(kind) && Write !in failing
    ensures var e := ApplyWallet(m, kind, Some(r), oldRecord, failing);
      var k := WalletWithId(m.wallets, r.id);
      var i := if k >= 0 then k else |m.wallets|;
      && e.reply == Processed && e.after.eduScores == m.eduScores
      && |e.after.wallets| == (if k >= 0 then |m.wallets| else |m.wallets| + 1)
      && WalletWithId(e.after.wallets, r.id) == i
      && var w := e.after.wallets[i];
      && w.id == r.id && w.userId == r.userId && w.balance == r.balance && w.roundupTotal == r.roundupTotal
      && w.rewardsEarned == r.rewardsEarned && w.lastTransactionDate == Some(r.lastTransactionDate)
      && w.transactions == (if k >= 0 then m.wallets[k].transactions else [])
      && forall j :: 0 <= j < |m.wallets| && j != i ==> e.after.wallets[j] == m.wallets[j]
  {
    UpsertWalletShape(m.wallets, r);
  }

  /** A transaction INSERT or UPDATE for an existing parent wallet with a
      negative balance is refused with 500 and writes nothing. Otherwise it
      changes only that wallet's embedded array, to the replace-or-append
      of the mirrored entry; no wallet's id, owner or aggregates change.
      Applying the same event again changes nothing more. */
  lemma TransactionUpsertOutcome(m: MirrorDocs, kind: string, r: Transaction, oldRecord: Option<Transaction>, failing: set<MirrorStep>)
    requires IsWrite(kind) && Query !in failing && Write !in failing
    requires WalletWithId(m.wallets, r.walletId) >= 0
    ensures var e := ApplyTransaction(m, kind, Some(r), oldRecord, failing);
      var k := WalletWithId(m.wallets, r.walletId);
      && (m.wallets[k].balance < 0 ==> e == Routed(Failed(MirrorWalletRoutes.WalletValidationFailed), m))
      && (m.wallets[k].balance >= 0 ==>
            && e.reply == Processed && e.after.eduScores == m.eduScores
            && |e.after.wallets| == |m.wallets|
            && e.after.wallets[k].transactions == UpsertEntry(m.wallets[k].transactions, EntryOf(r))
            && (forall j :: 0 <= j < |m.wallets| ==>
                  && e.after.wallets[j].id == m.wallets[j].id && e.after.wallets[j].userId == m.wallets[j].userId
                  && MirrorWalletRoutes.AggregatesOf(e.after.wallets[j]) == MirrorWalletRoutes.AggregatesOf(m.wallets[j])
                  && e.after.wallets[j].lastTransactionDate == m.wallets[j].lastTransactionDate)
            && (forall j :: 0 <= j < |m.wallets| && j != k ==> e.after.wallets[j] == m.wallets[j]))
      && ApplyTransaction(e.after, kind, Some(r), oldRecord, failing) == e
  {
    var e := ApplyTransaction(m, kind, Some(r), oldRecord, failing);
    var k := WalletWithId(m.wallets, r.walletId);
    if m.wallets[k].balance < 0 {
      return;
    }
    assert WalletWithId(e.after.wallets, r.walletId) == k by {
      assert forall j :: 0 <= j < |m.wallets| ==> e.after.wallets[j].id == m.wallets[j].id;
    }
    UpsertEntryIdempotent(m.wallets[k].transactions, EntryOf(r));
    assert e.after.wallets[k].transactions == UpsertEntry(m.wallets[k].transactions, EntryOf(r));
    assert e.after.wallets[k := e.after.wallets[k].(transactions := e.after.wallets[k].transactions)] == e.after.wallets;
  }

  /** A transaction DELETE for an existing parent wallet with a negative
      balance is refused with 500 and writes nothing. Otherwise it filters
      every entry with the row's id out of that wallet's array, keeps the
      rest in order, and changes nothing else. */
  lemma TransactionDeleteOutcome(m: MirrorDocs, kind: string, record: Option<Transaction>, r: Transaction, failing: set<MirrorStep>)
    requires kind == "DELETE" && Query !in failing && Write !in failing
    requires WalletWithId(m.wallets, r.walletId) >= 0
    ensures var e := ApplyTransaction(m, kind, record, Some(r), failing);
      var k := WalletWithId(m.wallets, r.walletId);
      && (m.wallets[k].balance < 0 ==> e == Routed(Failed(MirrorWalletRoutes.WalletValidationFailed), m))
      && (m.wallets[k].balance >= 0 ==>
            && e.reply == Processed && e.after.eduScores == m.eduScores
            && |e.after.wallets| == |m.wallets|
            && e.after.wallets[k] == m.wallets[k].(transactions := RemoveEntries(m.wallets[k].transactions, r.id))
            && (forall j :: 0 <= j < |m.wallets| && j != k ==> e.after.wallets[j] == m.wallets[j])
            && (forall t :: t in e.after.wallets[k].transactions ==> t.id != r.id))
  {
    var k := WalletWithId(m.wallets, r.walletId);
    RemoveEntriesShape(m.wallets[k].transactions, [], r.id);
  }

  /** The wallet upsert checks nothing, so a negative balance copied from
      the primary store is stored as is; every later transaction INSERT for
      that wallet is then refused with 500 and leaves the mirror as the
      upsert left it. */
  lemma NegativeMirroredBalanceBlocksEntries(m: MirrorDocs, w: Supabase.WalletRow, t: Transaction, failing: set<MirrorStep>)
    requires w.balance < 0 && t.walletId == w.id && Query !in failing && Write !in failing
    ensures var first := Apply(m, WalletChange("UPDATE", Some(w), None), failing);
      && first.reply == Processed
      && Apply(first.after, TransactionChange("INSERT", Some(t), None), failing)
         == Routed(Failed(MirrorWalletRoutes.WalletValidationFailed), first.after)
  {
    WalletUpsertOutcome(m, "UPDATE", w, None, failing);
  }

  /** Since transaction changes never recompute the aggregates, mirroring
      a new successful deposit into a wallet whose aggregates matched its
      entries, and whose balance the save accepts, leaves them out of
      step. */
  lemma MirroredDepositUnbalances(m: MirrorDocs, kind: string, r: Transaction, oldRecord: Option<Transaction>, failing: set<MirrorStep>)
    requires IsWrite(kind) && Query !in failing && Write !in failing && r.txType == Deposit && r.amount != 0
    requires WalletWithId(m.wallets, r.walletId) >= 0
    requires MirrorWalletRoutes.Balanced(m.wallets[WalletWithId(m.wallets, r.walletId)])
    requires m.wallets[WalletWithId(m.wallets, r.walletId)].balance >= 0
    requires forall t :: t in m.wallets[WalletWithId(m.wallets, r.walletId)].transactions ==> t.id != r.id
    ensures var e := ApplyTransaction(m, kind, Some(r), oldRecord, failing);
      !MirrorWalletRoutes.Balanced(e.after.wallets[WalletWithId(m.wallets, r.walletId)])
  {
    var k := WalletWithId(m.wallets, r.walletId);
    var txs := m.wallets[k].transactions;
    assert Seqs.FirstIndex(txs, SameId(r.id)) == -1 by {
      forall j | 0 <= j < |txs| ensures !SameId(r.id)(txs[j]) {
        assert txs[j] in txs;
      }
    }
    MirrorWalletRoutes.FoldAppend(txs, EntryOf(r));
  }

  /** An edu_scores INSERT or UPDATE leaves the user's record with exactly
      the copied score, lessons and date, in place or added at the end. */
  lemma EduUpsertOutcome(m: MirrorDocs, kind: string, r: Supabase.EduScoreRow, oldRecord: Option<Supabase.EduScoreRow>, failing: set<MirrorStep>)
    requires IsWrite(kind) && Write !in failing
    ensures var e := ApplyEdu(m, kind, Some(r), oldRecord, failing);
      var k := EduOfUser(m.eduScores, r.userId);
      var i := if k >= 0 then k else |m.eduScores|;
      && e.reply == Processed && e.after.wallets == m.wallets
      && |e.after.eduScores| == (if k >= 0 then |m.eduScores| else |m.eduScores| + 1)
      && e.after.eduScores[i] == MirrorEdu(r.userId, r.score, r.completedLessons, r.lastUpdated)
      && forall j :: 0 <= j < |m.eduScores| && j != i ==> e.after.eduScores[j] == m.eduScores[j]
  {
    UpsertEduShape(m.eduScores, r);
  }

  lemma ApplyWalletKeepsKeyed(m: MirrorDocs, kind: string, record: Option<Supabase.WalletRow>,
                              oldRecord: Option<Supabase.WalletRow>, failing: set<MirrorStep>)
    requires Keyed(m)
    ensures Keyed(ApplyWallet(m, kind, record, oldRecord, failing).after)
  {
    if IsWrite(kind) && record.Some? {
      UpsertWalletShape(m.wallets, record.value);
    } else if kind == "DELETE" && oldRecord.Some? {
      RemoveAtKeepsWalletIds(m.wallets, WalletWithId(m.wallets, oldRecord.value.id));
    }
  }

  lemma ApplyTransactionKeepsKeyed(m: MirrorDocs, kind: string, record: Option<Transaction>,
                                   oldRecord: Option<Transaction>, failing: set<MirrorStep>)
    requires Keyed(m)
    ensures Keyed(ApplyTransaction(m, kind, record, oldRecord, failing).after)
  {
    var e := ApplyTransaction(m, kind, record, oldRecord, failing);
    assert |e.after.wallets| == |m.wallets|;
    assert forall j :: 0 <= j < |m.wallets| ==> e.after.wallets[j].id == m.wallets[j].id;
  }

  lemma ApplyEduKeepsKeyed(m: MirrorDocs, kind: string, record: Option<Supabase.EduScoreRow>,
                           oldRecord: Option<Supabase.EduScoreRow>, failing: set<MirrorStep>)
    requires Keyed(m)
    ensures Keyed(ApplyEdu(m, kind, record, oldRecord, failing).after)
  {
    if IsWrite(kind) && record.Some? {
      UpsertEduShape(m.eduScores, record.value);
    } else if kind == "DELETE" && oldRecord.Some? {
      RemoveAtKeepsEduUsers(m.eduScores, EduOfUser(m.eduScores, oldRecord.value.userId));
    }
  }

  /** Every event keeps wallet ids and learning-score users distinct. */
  lemma ApplyKeepsKeyed(m: MirrorDocs, ev: ChangeEvent, failing: set<MirrorStep>)
    requires Keyed(m)
    ensures Keyed(Apply(m, ev, failing).after)
  {
    match ev
    case WalletChange(kind, record, oldRecord) => ApplyWalletKeepsKeyed(m, kind, record, oldRecord, failing);
    case TransactionChange(kind, record, oldRecord) => ApplyTransactionKeepsKeyed(m, kind, record, oldRecord, failing);
    case EduChange(kind, record, oldRecord) => ApplyEduKeepsKeyed(m, kind, record, oldRecord, failing);
    case OtherTable(_, _) =>
  }
}
