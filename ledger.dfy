/** The primary store's balance rule (updateWalletBalance in
    src/lib/walletCrud.ts) and the fold it is meant to agree with: a wallet's
    balance and round-up total equal the sum of the effects of its successful
    transactions. rewards_earned is never written by this rule, so it is not
    part of the fold. */
module Ledger {
  import opened Common
  import opened WalletTypes

  /** The two aggregates the rule maintains. */
  datatype Totals = Totals(balance: Paise, roundupTotal: Paise)

  const Zero := Totals(0, 0)

  function Plus(a: Totals, b: Totals): Totals {
    Totals(a.balance + b.balance, a.roundupTotal + b.roundupTotal)
  }

  // Arithmetic on Totals, used by the replay proofs below and in the
  // store modules; these state nothing about the source on their own.

  lemma PlusZero(a: Totals)
    ensures Plus(a, Zero) == a && Minus(a, Zero) == a
  {
  }

  lemma PlusRearrange(a: Totals, c: Totals, b: Totals)
    ensures Plus(a, Plus(c, b)) == Plus(Plus(a, b), c)
  {
  }

  /** Only Zero leaves totals unchanged. */
  lemma PlusMoves(a: Totals, d: Totals)
    requires d != Zero
    ensures Plus(a, d) != a
  {
  }

  lemma MinusUndoesPlus(a: Totals, b: Totals)
    ensures Minus(Plus(a, b), b) == a
  {
  }

  function Minus(a: Totals, b: Totals): Totals {
    Totals(a.balance - b.balance, a.roundupTotal - b.roundupTotal)
  }

  /** Reference table: what one transaction of each kind contributes.
      Deposits, round-ups and rewards are credits, withdrawals debits, and
      only round-ups count towards the round-up total. */
  function Delta(t: TxType, amount: Paise): Totals {
    match t
    case RoundUp => Totals(amount, amount)
    case Deposit => Totals(amount, 0)
    case Reward => Totals(amount, 0)
    case Withdrawal => Totals(-amount, 0)
  }

  /** updateWalletBalance's branches on the type string: a known kind moves
      the totals by its Delta, any other string leaves them as they are. */
  function ApplyEffect(w: Totals, amount: Paise, typeName: string): (r: Totals)
    ensures ParseType(typeName).Some? ==> r == Plus(w, Delta(ParseType(typeName).value, amount))
    ensures ParseType(typeName).None? ==> r == w
  {
    var balance, roundupTotal := w.balance, w.roundupTotal;
    if typeName == "deposit" || typeName == "round-up" || typeName == "reward" then
      Totals(balance + amount, if typeName == "round-up" then roundupTotal + amount else roundupTotal)
    else if typeName == "withdrawal" then
      Totals(balance - amount, roundupTotal)
    else
      w
  }

  /** Deleting applies the same type with the negated amount, which undoes
      the creation exactly. */
  lemma EffectReversal(w: Totals, amount: Paise, typeName: string)
    ensures ApplyEffect(ApplyEffect(w, amount, typeName), -amount, typeName) == w
  {
  }

  /** A negated amount contributes the opposite Delta. */
  lemma DeltaNegate(t: TxType, amount: Paise)
    ensures Delta(t, -amount) == Minus(Zero, Delta(t, amount))
  {
  }

  predicate Succeeded(t: Transaction) {
    t.status == "success"
  }

  /** What a row contributes to the aggregates of wallet walletId. */
  function Contribution(t: Transaction, walletId: Id): Totals {
    if t.walletId == walletId && Succeeded(t) then Delta(t.txType, t.amount) else Zero
  }

  /** The aggregates of wallet walletId rebuilt from the transaction history. */
  function Replay(txs: seq<Transaction>, walletId: Id): Totals {
    if |txs| == 0 then Zero
    else Plus(Contribution(txs[0], walletId), Replay(txs[1..], walletId))
  }

  lemma {:induction false} ReplayConcat(a: seq<Transaction>, b: seq<Transaction>, walletId: Id)
    ensures Replay(a + b, walletId) == Plus(Replay(a, walletId), Replay(b, walletId))
  {
    if |a| == 0 {
      assert a + b == b;
    } else {
      assert (a + b)[0] == a[0];
      assert (a + b)[1..] == a[1..] + b;
      ReplayConcat(a[1..], b, walletId);
      var c, ra, rb := Contribution(a[0], walletId), Replay(a[1..], walletId), Replay(b, walletId);
      assert Replay(a + b, walletId) == Plus(c, Plus(ra, rb));
      assert Replay(a, walletId) == Plus(c, ra);
    }
  }

  /** Appending a row adds exactly its contribution. */
  lemma ReplayAppend(txs: seq<Transaction>, t: Transaction, walletId: Id)
    ensures Replay(txs + [t], walletId) == Plus(Replay(txs, walletId), Contribution(t, walletId))
  {
    ReplayConcat(txs, [t], walletId);
  }

  /** Removing the row at i takes away exactly its contribution. */
  lemma ReplayRemoveAt(txs: seq<Transaction>, i: nat, walletId: Id)
    requires i < |txs|
    ensures Replay(txs, walletId) == Plus(Replay(txs[..i] + txs[i + 1..], walletId), Contribution(txs[i], walletId))
  {
    var a, b := txs[..i], txs[i + 1..];
    var c := Contribution(txs[i], walletId);
    assert txs == a + ([txs[i]] + b);
    ReplayConcat(a, [txs[i]] + b, walletId);
    assert ([txs[i]] + b)[0] == txs[i] && ([txs[i]] + b)[1..] == b;
    assert Replay([txs[i]] + b, walletId) == Plus(c, Replay(b, walletId));
    ReplayConcat(a, b, walletId);
    PlusRearrange(Replay(a, walletId), c, Replay(b, walletId));
  }

  /** A wallet with no rows of its own replays to zero. */
  lemma {:induction false} ReplayAbsent(txs: seq<Transaction>, walletId: Id)
    requires forall k :: 0 <= k < |txs| ==> txs[k].walletId != walletId
    ensures Replay(txs, walletId) == Zero
  {
    if |txs| > 0 {
      ReplayAbsent(txs[1..], walletId);
    }
  }
}
