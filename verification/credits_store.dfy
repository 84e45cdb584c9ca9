/** The client-side store of the player's Galactic Credits balance. A refresh
    is split at its one await: `RefreshStart` is what happens synchronously,
    `RefreshFinish` applies the outcome of the token-balance read. */
module CreditsStore {
  import opened Wrappers

  datatype CreditsState = CreditsState(
    balance: int,
    isLoading: bool,
    error: Option<string>,
    isInitialized: bool)

  const InitialCredits: CreditsState := CreditsState(0, false, None, false)

  /** How the token-balance read ended: a balance, or a thrown value that is
      an `Error` with a message or something else. */
  datatype BalanceRead = Fetched(amount: int) | FailedWithError(message: string) | FailedOther

  /** The message shown for a failed read. */
  const FallbackError := "Failed to fetch balance"

  /** What `refreshBalance` does before its await, and whether it goes on to
      read the balance. */
  datatype RefreshStep = RefreshStep(state: CreditsState, fetches: bool)

  /** `refreshBalance` up to the await. A refresh already in flight makes it
      a no-op; without a wallet the balance is zeroed and marked initialised;
      otherwise it marks itself loading and clears the error. */
  function RefreshStart(s: CreditsState, hasWallet: bool): (r: RefreshStep)
    ensures s.isLoading ==> r == RefreshStep(s, false)
    ensures !s.isLoading && !hasWallet ==>
      !r.fetches && r.state.balance == 0 && r.state.error.None? && r.state.isInitialized
      && r.state.isLoading == s.isLoading
    ensures !s.isLoading && hasWallet ==>
      r.fetches && r.state.isLoading && r.state.error.None?
      && r.state.balance == s.balance && r.state.isInitialized == s.isInitialized
  {
    if s.isLoading then RefreshStep(s, false)
    else if !hasWallet then RefreshStep(s.(balance := 0, error := None, isInitialized := true), false)
    else RefreshStep(s.(isLoading := true, error := None), true)
  }

  /** `refreshBalance` after the await: the read's balance, or zero and an
      error message; either way loading ends and the store is initialised. */
  function RefreshFinish(s: CreditsState, read: BalanceRead): (r: CreditsState)
    ensures !r.isLoading && r.isInitialized
    ensures read.Fetched? ==> r.error == s.error
    ensures read.Fetched? ==> r.balance == read.amount
    ensures !read.Fetched? ==> r.balance == 0
    ensures read.FailedWithError? ==> r.error == Some(read.message)
    ensures read.FailedOther? ==> r.error == Some(FallbackError)
  {
    match read
    case Fetched(amount) => s.(balance := amount, isLoading := false, isInitialized := true)
    case FailedWithError(message) =>
      s.(balance := 0, error := Some(message), isLoading := false, isInitialized := true)
    case FailedOther =>
      s.(balance := 0, error := Some(FallbackError), isLoading := false, isInitialized := true)
  }

  /** A whole `refreshBalance` with no other action in between. */
  function RefreshBalance(s: CreditsState, hasWallet: bool, read: BalanceRead): (r: CreditsState)
  {
    var step := RefreshStart(s, hasWallet);
    if step.fetches then RefreshFinish(step.state, read) else step.state
  }

  /** `setBalance`: replaces the balance and nothing else. */
  function SetBalance(s: CreditsState, balance: int): (r: CreditsState)
    ensures r.balance == balance
    ensures r.(balance := s.balance) == s
  {
    s.(balance := balance)
  }

  /** A refresh started from an idle store always leaves it idle and
      initialised; the balance is the read's on success and zero otherwise. */
  lemma RefreshFromIdleSettles(s: CreditsState, hasWallet: bool, read: BalanceRead)
    requires !s.isLoading
    ensures var r := RefreshBalance(s, hasWallet, read);
      && !r.isLoading && r.isInitialized
      && r.balance == (if hasWallet && read.Fetched? then read.amount else 0)
      && (r.error.None? <==> !hasWallet || read.Fetched?)
  {
  }

  /** While a refresh is in flight a second one neither fetches nor changes
      the store, so at most one balance read is ever outstanding. */
  lemma RefreshDeduplicates(s: CreditsState, hasWallet: bool)
    requires s.isLoading
    ensures !RefreshStart(s, hasWallet).fetches
    ensures RefreshStart(s, hasWallet).state == s
  {
  }

  /** After a started refresh, the store is loading until the read is
      applied, and a second refresh in that window fetches nothing. */
  lemma StartedRefreshBlocksAnother(s: CreditsState)
    requires !s.isLoading
    ensures RefreshStart(s, true).fetches
    ensures !RefreshStart(RefreshStart(s, true).state, true).fetches
  {
  }

  /** Setting a balance leaves a later refresh's outcome unaffected. */
  lemma SetBalanceThenRefresh(s: CreditsState, b: int, read: BalanceRead)
    requires !s.isLoading
    ensures RefreshBalance(SetBalance(s, b), true, read).balance == RefreshBalance(s, true, read).balance
  {
  }
}
