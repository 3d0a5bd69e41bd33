/** The secondary (document) store in the camelCase shape of the Mongoose
    models backend/models/Wallet.js, Transaction.js and EduScore.js: the
    three document types with their declared defaults, enums and `min: 0`
    bounds, the pre-save hook of edu scores, and the collections as one
    value and as an object the route handlers update in place.

    ObjectIds come from the counter nextOid. A save validates the document
    against its schema and fails when a bound or enum is violated. */
module Mongo {
  import opened Common
  import opened Ledger
  import Seqs

  datatype MongoWallet = MongoWallet(
    id: Id,
    userId: Id,
    supabaseUserId: Option<string>,
    balance: Paise,
    roundupTotal: Paise,
    rewardsEarned: Paise,
    lastTransactionDate: Timestamp,
    createdAt: Timestamp)

  /** A transaction document; the enums of `type` and `status` are the
      datatypes TxType and Status, so a stored document always has a valid
      kind and status. */
  datatype MongoTx = MongoTx(
    id: Id,
    walletId: Id,
    userId: Id,
    supabaseWalletId: Option<string>,
    txType: TxType,
    amount: Paise,
    status: Status,
    description: Option<string>,
    createdAt: Timestamp)

  datatype MongoEdu = MongoEdu(
    id: Id,
    userId: Id,
    supabaseUserId: Option<string>,
    score: int,
    completedLessons: seq<string>,
    lastUpdated: Timestamp,
    createdAt: Timestamp)

  // ---- Wallet.js ----

  /** A new wallet document: only userId is required; the aggregates
      default to zero and both dates to now. */
  function NewWallet(id: Id, userId: Id, now: Timestamp): (w: MongoWallet)
    ensures w.userId == userId && w.supabaseUserId.None?
    ensures w.balance == 0 && w.roundupTotal == 0 && w.rewardsEarned == 0
    ensures w.lastTransactionDate == now && w.createdAt == now
  {
    MongoWallet(id, userId, None, 0, 0, 0, now, now)
  }

  /** The `min: 0` bounds of the three aggregates. */
  predicate WalletBounds(w: MongoWallet) {
    w.balance >= 0 && w.roundupTotal >= 0 && w.rewardsEarned >= 0
  }

  /** The defaults meet the bounds, and adding non-negative amounts keeps
      them. */
  lemma WalletBoundsKept(id: Id, userId: Id, now: Timestamp, w: MongoWallet, b: Paise, r: Paise, t: Timestamp)
    ensures WalletBounds(NewWallet(id, userId, now))
    ensures WalletBounds(w) && b >= 0 && r >= 0 ==>
      WalletBounds(w.(balance := w.balance + b, roundupTotal := w.roundupTotal + r, lastTransactionDate := t))
  {
  }

  // ---- Transaction.js ----

  /** Building a transaction document from the values a caller gives:
      `type` must name one of the four kinds, `status` one of the three
      statuses and defaults to success; walletId, userId and amount are
      required and present by construction; amount has no bound. */
  function CastTx(id: Id, walletId: Id, userId: Id, typeName: string, amount: Paise, status: Option<string>, description: Option<string>, now: Timestamp): (r: Option<MongoTx>)
    ensures r.Some? <==> ParseType(typeName).Some? && (status.None? || ParseStatus(status.value).Some?)
    ensures r.Some? ==>
      && TypeName(r.value.txType) == typeName && r.value.amount == amount
      && r.value.walletId == walletId && r.value.userId == userId
      && (status.None? ==> r.value.status == Success)
      && (status.Some? ==> StatusName(r.value.status) == status.value)
  {
    var kind := ParseType(typeName);
    var st := if status.None? then Some(Success) else ParseStatus(status.value);
    if kind.None? || st.None? then None
    else Some(MongoTx(id, walletId, userId, None, kind.value, amount, st.value, description, now))
  }

  /** The schema declares no lower bound on amount: a negative amount is
      accepted. */
  lemma NegativeAmountAccepted(id: Id, walletId: Id, userId: Id, now: Timestamp)
    ensures var r := CastTx(id, walletId, userId, "deposit", -100, None, None, now);
      r.Some? && r.value.amount < 0
  {
  }

  // ---- EduScore.js ----

  /** A new edu score document: score 0, no lessons, dates now. */
  function NewEdu(id: Id, userId: Id, now: Timestamp): (e: MongoEdu)
    ensures e.userId == userId && e.score == 0 && e.completedLessons == []
    ensures e.lastUpdated == now && e.createdAt == now
  {
    MongoEdu(id, userId, None, 0, [], now, now)
  }

  /** The `min: 0` bound of score. */
  predicate EduBounds(e: MongoEdu) {
    e.score >= 0
  }

  /** The pre-save hook: every save refreshes lastUpdated. */
  function PreSave(e: MongoEdu, now: Timestamp): (r: MongoEdu)
    ensures r.lastUpdated == now
    ensures r.(lastUpdated := e.lastUpdated) == e
  {
    e.(lastUpdated := now)
  }

  // ---- the collections ----

  /** The three collections and the ObjectId generator, as one value. */
  datatype Docs = Docs(
    wallets: seq<MongoWallet>,
    transactions: seq<MongoTx>,
    eduScores: seq<MongoEdu>,
    nextOid: nat)

  /** What a handler answers and the collections it leaves behind. */
  datatype Handled<R> = Handled(reply: R, after: Docs)

  /** The store calls a handler makes; those in its `failing` set throw. */
  datatype MongoStep = Find | TxSave | WalletSave | EduSave

  /** Every stored document satisfies its schema, ids are below nextOid,
      and wallet and edu score ids are distinct. */
  ghost predicate Stored(d: Docs) {
    && (forall k :: 0 <= k < |d.wallets| ==> WalletBounds(d.wallets[k]) && d.wallets[k].id < d.nextOid)
    && (forall i, j :: 0 <= i < j < |d.wallets| ==> d.wallets[i].id != d.wallets[j].id)
    && (forall k :: 0 <= k < |d.transactions| ==> d.transactions[k].id < d.nextOid)
    && (forall k :: 0 <= k < |d.eduScores| ==> EduBounds(d.eduScores[k]) && d.eduScores[k].id < d.nextOid)
    && (forall i, j :: 0 <= i < j < |d.eduScores| ==> d.eduScores[i].id != d.eduScores[j].id)
  }

  /** `findOne({ userId })`: the first wallet of the user. */
  function WalletOfUser(ws: seq<MongoWallet>, uid: Id): (r: int)
    ensures -1 <= r < |ws|
    ensures r == -1 <==> forall k :: 0 <= k < |ws| ==> ws[k].userId != uid
    ensures 0 <= r ==> ws[r].userId == uid && forall k :: 0 <= k < r ==> ws[k].userId != uid
  {
    Seqs.FirstIndex(ws, (w: MongoWallet) => w.userId == uid)
  }

  /** `findOne({ userId })` on edu scores. */
  function EduOfUser(es: seq<MongoEdu>, uid: Id): (r: int)
    ensures -1 <= r < |es|
    ensures r == -1 <==> forall k :: 0 <= k < |es| ==> es[k].userId != uid
    ensures 0 <= r ==> es[r].userId == uid && forall k :: 0 <= k < r ==> es[k].userId != uid
  {
    Seqs.FirstIndex(es, (e: MongoEdu) => e.userId == uid)
  }

  /** `save()` of an edu score document: validated, stamped by the hook,
      then written over the document with its id, or added. None when the
      bound is violated. */
  function SaveEdu(es: seq<MongoEdu>, e: MongoEdu, now: Timestamp): (r: Option<seq<MongoEdu>>)
    ensures r.None? <==> !EduBounds(e)
  {
    if !EduBounds(e) then None
    else
      var i := Seqs.FirstIndex(es, (x: MongoEdu) => x.id == e.id);
      Some(if i < 0 then es + [PreSave(e, now)] else es[i := PreSave(e, now)])
  }

  /** Saving a document whose id is taken writes over that document. */
  lemma SaveEduAt(es: seq<MongoEdu>, k: nat, e: MongoEdu, now: Timestamp)
    requires k < |es| && es[k].id == e.id && EduBounds(e)
    requires forall i, j :: 0 <= i < j < |es| ==> es[i].id != es[j].id
    ensures SaveEdu(es, e, now) == Some(es[k := PreSave(e, now)])
  {
    var i := Seqs.FirstIndex(es, (x: MongoEdu) => x.id == e.id);
    assert i == k;
  }

  /** Saving a document with a new id adds it at the end. */
  lemma SaveEduNew(es: seq<MongoEdu>, e: MongoEdu, now: Timestamp)
    requires EduBounds(e) && forall k :: 0 <= k < |es| ==> es[k].id != e.id
    ensures SaveEdu(es, e, now) == Some(es + [PreSave(e, now)])
  {
  }

  // ---- the ledger of the document store ----

  /** What a transaction document contributes to wallet walletId, by the
      same per-kind rule as the primary store. */
  function DocContribution(t: MongoTx, walletId: Id): Totals {
    if t.walletId == walletId && t.status == Success then Delta(t.txType, t.amount) else Zero
  }

  function DocReplay(txs: seq<MongoTx>, walletId: Id): Totals {
    if |txs| == 0 then Zero
    else Plus(DocContribution(txs[0], walletId), DocReplay(txs[1..], walletId))
  }

  lemma {:induction false} DocReplayAppend(txs: seq<MongoTx>, t: MongoTx, walletId: Id)
    ensures DocReplay(txs + [t], walletId) == Plus(DocReplay(txs, walletId), DocContribution(t, walletId))
  {
    if |txs| == 0 {
      assert txs + [t] == [t];
      assert [t][1..] == [];
    } else {
      assert (txs + [t])[0] == txs[0];
      assert (txs + [t])[1..] == txs[1..] + [t];
      DocReplayAppend(txs[1..], t, walletId);
      PlusRearrange(DocContribution(txs[0], walletId), DocContribution(t, walletId), DocReplay(txs[1..], walletId));
    }
  }

  /** Every wallet's balance and round-up total equal the fold over its
      successful transaction documents. */
  ghost predicate DocsConsistent(d: Docs) {
    forall k :: 0 <= k < |d.wallets| ==>
      Totals(d.wallets[k].balance, d.wallets[k].roundupTotal) == DocReplay(d.transactions, d.wallets[k].id)
  }

  /** The collections, updated in place by the route handlers. */
  class MongoStore {
    var wallets: seq<MongoWallet>
    var transactions: seq<MongoTx>
    var eduScores: seq<MongoEdu>
    var nextOid: nat

    function Snapshot(): Docs
      reads this
    {
      Docs(wallets, transactions, eduScores, nextOid)
    }

    ghost predicate Valid()
      reads this
    {
      Stored(Snapshot())
    }

    constructor ()
      ensures Valid()
      ensures Snapshot() == Docs([], [], [], 0)
    {
      wallets, transactions, eduScores := [], [], [];
      nextOid := 0;
    }

    /** `new mongoose.Types.ObjectId()`: an id no document has yet. */
    method FreshOid() returns (id: Id)
      modifies this`nextOid
      ensures id == old(nextOid) && nextOid == id + 1
    {
      id := nextOid;
      nextOid := nextOid + 1;
    }
  }
}
