/** The document store in the snake_case shape the mirror routes
    (backend/routes/walletRoutes.js, webhookRoutes.js, eduScoreRoutes.js)
    read and write: wallets keyed by the primary store's wallet id, each
    with an embedded array of transaction entries, and learning scores
    keyed by user. This shape differs from the camelCase documents of
    backend/models, so it has record types of its own.

    Generated ObjectIds come from the counter nextOid. */
module Mirror {
  import opened Common
  import Seqs

  /** An embedded transaction entry. The type is the string the request
      or change record carried; status and creation time are absent on
      entries copied from change records. */
  datatype MirrorEntry = MirrorEntry(
    id: Id,
    txType: string,
    amount: Paise,
    description: Option<string>,
    createdAt: Option<Timestamp>,
    walletId: Id,
    status: Option<string>)

  datatype MirrorWallet = MirrorWallet(
    id: Id,
    userId: Id,
    balance: Paise,
    roundupTotal: Paise,
    rewardsEarned: Paise,
    lastTransactionDate: Option<Timestamp>,
    transactions: seq<MirrorEntry>)

  datatype MirrorEdu = MirrorEdu(
    userId: Id,
    score: int,
    completedLessons: seq<string>,
    lastUpdated: Option<Timestamp>)

  /** The two collections and the ObjectId generator, as one value. */
  datatype MirrorDocs = MirrorDocs(wallets: seq<MirrorWallet>, eduScores: seq<MirrorEdu>, nextOid: nat)

  /** The store calls a route makes; those in its `failing` set throw. */
  datatype MirrorStep = Query | Write

  /** What a route answers and the collections it leaves behind. */
  datatype Routed<R> = Routed(reply: R, after: MirrorDocs)

  /** `findOne({ id })`: the first wallet with that id. */
  function WalletWithId(ws: seq<MirrorWallet>, id: Id): (r: int)
    ensures -1 <= r < |ws|
    ensures r == -1 <==> forall k :: 0 <= k < |ws| ==> ws[k].id != id
    ensures 0 <= r ==> ws[r].id == id && forall k :: 0 <= k < r ==> ws[k].id != id
  {
    Seqs.FirstIndex(ws, (w: MirrorWallet) => w.id == id)
  }

  /** `findOne({ user_id })` on wallets. */
  function WalletOfUser(ws: seq<MirrorWallet>, uid: Id): (r: int)
    ensures -1 <= r < |ws|
    ensures r == -1 <==> forall k :: 0 <= k < |ws| ==> ws[k].userId != uid
    ensures 0 <= r ==> ws[r].userId == uid && forall k :: 0 <= k < r ==> ws[k].userId != uid
  {
    Seqs.FirstIndex(ws, (w: MirrorWallet) => w.userId == uid)
  }

  /** `findOne({ user_id })` on learning scores. */
  function EduOfUser(es: seq<MirrorEdu>, uid: Id): (r: int)
    ensures -1 <= r < |es|
    ensures r == -1 <==> forall k :: 0 <= k < |es| ==> es[k].userId != uid
    ensures 0 <= r ==> es[r].userId == uid && forall k :: 0 <= k < r ==> es[k].userId != uid
  {
    Seqs.FirstIndex(es, (e: MirrorEdu) => e.userId == uid)
  }

  /** `deleteOne`: the element at i removed, the rest in order. */
  function RemoveAt<T>(s: seq<T>, i: int): (r: seq<T>)
    ensures i < 0 || i >= |s| ==> r == s
    ensures 0 <= i < |s| ==>
      && |r| == |s| - 1
      && (forall k :: 0 <= k < i ==> r[k] == s[k])
      && (forall k :: i <= k < |r| ==> r[k] == s[k + 1])
  {
    if 0 <= i < |s| then s[..i] + s[i + 1..] else s
  }

  ghost predicate DistinctWalletIds(ws: seq<MirrorWallet>) {
    forall i, j :: 0 <= i < j < |ws| ==> ws[i].id != ws[j].id
  }

  ghost predicate DistinctEduUsers(es: seq<MirrorEdu>) {
    forall i, j :: 0 <= i < j < |es| ==> es[i].userId != es[j].userId
  }

  /** Wallet ids are distinct, and so are the users of learning scores. */
  ghost predicate Keyed(m: MirrorDocs) {
    DistinctWalletIds(m.wallets) && DistinctEduUsers(m.eduScores)
  }

  /** The collections, updated in place by the routes. */
  class MirrorStore {
    var wallets: seq<MirrorWallet>
    var eduScores: seq<MirrorEdu>
    var nextOid: nat

    function Snapshot(): MirrorDocs
      reads this
    {
      MirrorDocs(wallets, eduScores, nextOid)
    }

    constructor ()
      ensures Snapshot() == MirrorDocs([], [], 0)
    {
      wallets, eduScores := [], [];
      nextOid := 0;
    }

    /** `new mongoose.Types.ObjectId()`: an id no entry has yet. */
    method FreshOid() returns (id: Id)
      modifies this`nextOid
      ensures id == old(nextOid) && nextOid == id + 1
    {
      id := nextOid;
      nextOid := nextOid + 1;
    }
  }
}
