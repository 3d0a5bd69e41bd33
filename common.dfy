/** Shared vocabulary of the ledger: identifiers, money, timestamps, the
    transaction kinds and statuses, and the JavaScript "or default" idiom. */
module Common {

  datatype Option<T> = None | Some(value: T)

  /** A call that either returns a value or throws an error with a message. */
  datatype Outcome<T> = Returned(value: T) | Threw(message: string)

  const NotAuthenticated := "User not authenticated"
  const WalletNotFound := "Wallet not found"
  /** Stands for whatever error object a failing store call reports. */
  const StoreFailure := "store error"

  /** Row and document identifiers (UUIDs, ObjectIds, gateway order ids).
      Only equality between them is ever used. */
  type Id = nat

  /** Money, in integer paise (100 paise = 1 rupee). */
  type Paise = int

  /** Timestamps are opaque; only their order matters (newest-first listings). */
  type Timestamp = int

  /** The four transaction kinds. */
  datatype TxType = RoundUp | Deposit | Withdrawal | Reward

  /** The wire name of a transaction kind. */
  function TypeName(t: TxType): string {
    match t
    case RoundUp => "round-up"
    case Deposit => "deposit"
    case Withdrawal => "withdrawal"
    case Reward => "reward"
  }

  /** Reads a wire name back; anything but the four names is not a kind. */
  function ParseType(s: string): (r: Option<TxType>)
    ensures r.Some? ==> TypeName(r.value) == s
  {
    if s == "round-up" then Some(RoundUp)
    else if s == "deposit" then Some(Deposit)
    else if s == "withdrawal" then Some(Withdrawal)
    else if s == "reward" then Some(Reward)
    else None
  }

  /** Together with the ensures of ParseType: s names a kind iff ParseType(s) is Some. */
  lemma ParseTypeName(t: TxType)
    ensures ParseType(TypeName(t)) == Some(t)
  {
  }

  /** The three transaction statuses. */
  datatype Status = Pending | Success | Failed

  function StatusName(s: Status): string {
    match s
    case Pending => "pending"
    case Success => "success"
    case Failed => "failed"
  }

  function ParseStatus(s: string): (r: Option<Status>)
    ensures r.Some? ==> StatusName(r.value) == s
  {
    if s == "pending" then Some(Pending)
    else if s == "success" then Some(Success)
    else if s == "failed" then Some(Failed)
    else None
  }

  lemma ParseStatusName(s: Status)
    ensures ParseStatus(StatusName(s)) == Some(s)
  {
  }

  /** JavaScript `s || d` on a string: the empty (or absent) string is falsy. */
  function OrDefault(s: string, d: string): (r: string)
    ensures s != "" ==> r == s
    ensures s == "" ==> r == d
  {
    if s == "" then d else s
  }

  function Max(a: int, b: int): (m: int)
    ensures m >= a && m >= b && (m == a || m == b)
  {
    if a >= b then a else b
  }
}
