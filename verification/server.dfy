/** What the server routes share: the signed-in session, the wallet address
    read from it, the key-value store holding player records and minted
    flags, and the outcome of an on-chain transfer. */
module Server {
  import opened Wrappers
  import opened Models

  /** The identity-provider session: nobody signed in, or a user whose
      embedded wallet object may be missing. `solana` is the wallet object's
      `address` field when the object exists. */
  datatype Session = NoUser | User(id: string, solana: Option<string>)

  /** A route's failure reply. */
  datatype Failure = Failure(status: int, error: string)

  const Unauthorized := Failure(401, "Unauthorized: No active user session")
  const NoWalletInSession := Failure(400, "User authenticated, but no Solana wallet address found in session. Ensure wallet is created.")
  /** What the catch block of a route answers; the thrown message is not modelled. */
  function Internal(error: string): Failure { Failure(500, error) }

  /** The session check every route starts with: a user must be present and
      carry a non-empty id. */
  predicate SignedIn(s: Session) {
    s.User? && s.id != ""
  }

  /** Reading `user.solana.address` and building a public key from it. A
      missing wallet object makes the property access throw, which the
      route's catch turns into a 500; an empty address is a 400; an address
      that is not a valid key makes the key constructor throw, again a 500. */
  function WalletAddress(s: Session, isValidKey: string -> bool, catchError: string): (r: Result<string>)
    requires SignedIn(s)
    ensures r.Ok? <==> s.solana.Some? && s.solana.value != "" && isValidKey(s.solana.value)
    ensures r.Ok? ==> r.value == s.solana.value
    ensures r.Err? && s.solana.Some? && s.solana.value == "" ==> r.failure == NoWalletInSession
    ensures r.Err? && !(s.solana.Some? && s.solana.value == "") ==> r.failure.status == 500
  {
    match s.solana
    case None => Err(Internal(catchError))
    case Some(address) =>
      if address == "" then Err(NoWalletInSession)
      else if !isValidKey(address) then Err(Internal(catchError))
      else Ok(address)
  }

  datatype Result<T> = Ok(value: T) | Err(failure: Failure)

  /** A minted-flag entry: its value and the second at which it expires. */
  datatype FlagEntry = FlagEntry(value: string, expiresAt: int)

  /** The key-value store: one JSON player record per user id, and one
      minted flag per (user id, blueprint id). */
  datatype Store = Store(users: map<string, UserData>, flags: map<(string, string), FlagEntry>)

  /** Reading a flag at second `now`: an entry whose expiry has come is gone. */
  function ReadFlag(st: Store, key: (string, string), now: int): Option<string> {
    if key in st.flags && now < st.flags[key].expiresAt then Some(st.flags[key].value) else None
  }

  /** A flag written with an expiry of `lifetime` seconds from `t` reads back
      its value until `t + lifetime` and is gone from then on; every other
      key reads as before. */
  lemma WrittenFlagReadsBack(st: Store, key: (string, string), value: string, t: int, lifetime: int,
                             now: int, other: (string, string))
    ensures var st1 := st.(flags := st.flags[key := FlagEntry(value, t + lifetime)]);
      && ReadFlag(st1, key, now) == (if now < t + lifetime then Some(value) else None)
      && (other != key ==> ReadFlag(st1, other, now) == ReadFlag(st, other, now))
  {
  }

  /** How an on-chain token transfer ended: confirmed with a signature, or
      thrown. */
  datatype TransferOutcome = Sent(signature: string) | TransferFailed(message: string)

  /** Credits as token base units. */
  function ToBaseUnits(credits: int): (r: int)
    ensures r / BaseUnitsPerCredit == credits && r % BaseUnitsPerCredit == 0
  {
    credits * BaseUnitsPerCredit
  }
}
