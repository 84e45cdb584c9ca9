/** The faucet route: once per player record, sends the starting 1000
    Galactic Credits from the reward pool, marks the record as claimed, and
    then sends a little SOL for transaction fees. */
module ClaimRoute {
  import opened Wrappers
  import opened Models
  import opened Server
  import UserDataRoute

  const InitialCredits: int := 1000
  /** 0.005 SOL in lamports (10^9 lamports to the SOL). */
  const InitialSolLamports: int := 5_000_000

  const UserDataNotFound := Failure(400, "User data not found")
  const ClaimFailed := "Failed to claim initial credits"

  datatype ClaimReply = AlreadyClaimed(currentBalance: int) | Claimed(signature: string, amount: int)

  /** What a claim call did: its reply, the store afterwards, the credits it
      moved to the player (in base units) and whether it sent SOL. */
  datatype ClaimEffects = ClaimEffects(reply: Result<ClaimReply>, store: Store, creditsSent: int, solSent: bool)

  /** `POST`. The balance read for a player who has already claimed, and the
      outcomes of the credit transfer and the SOL transfer, are parameters;
      `now` is the save time. The balance read never fails: it answers 0
      when the token account cannot be read. */
  function Claim(st: Store, s: Session, isValidKey: string -> bool, balance: int,
                 credits: TransferOutcome, sol: TransferOutcome, now: int): (r: ClaimEffects)
    ensures r.creditsSent == 0 || r.creditsSent == ToBaseUnits(InitialCredits)
    ensures r.creditsSent > 0 <==>
      && SignedIn(s) && WalletAddress(s, isValidKey, ClaimFailed).Ok?
      && s.id in st.users && !st.users[s.id].hasClaimedInitialCredits && credits.Sent?
    ensures r.creditsSent > 0 ==>
      r.store == st.(users := st.users[s.id := st.users[s.id].(hasClaimedInitialCredits := true, lastSaved := now)])
    ensures r.creditsSent == 0 ==> r.store == st
    ensures r.solSent ==> r.creditsSent > 0 && sol.Sent?
    ensures r.reply.Ok? && r.reply.value.Claimed? <==> r.creditsSent > 0 && sol.Sent?
    ensures r.reply.Ok? && r.reply.value.Claimed? ==> r.reply.value.amount == InitialCredits
    ensures SignedIn(s) && WalletAddress(s, isValidKey, ClaimFailed).Ok? && s.id !in st.users ==>
      r.reply == Err(UserDataNotFound)
    ensures r.reply.Ok? && r.reply.value.AlreadyClaimed? <==>
      && SignedIn(s) && WalletAddress(s, isValidKey, ClaimFailed).Ok?
      && s.id in st.users && st.users[s.id].hasClaimedInitialCredits
    ensures r.reply.Ok? && r.reply.value.AlreadyClaimed? ==> r.reply == Ok(AlreadyClaimed(balance))
    ensures r.reply.Ok? && r.reply.value.Claimed? ==> r.reply.value.signature == credits.signature
    ensures !SignedIn(s) ==> r.reply == Err(Unauthorized)
    ensures SignedIn(s) && WalletAddress(s, isValidKey, ClaimFailed).Err? ==>
      r.reply == Err(WalletAddress(s, isValidKey, ClaimFailed).failure)
    ensures SignedIn(s) && WalletAddress(s, isValidKey, ClaimFailed).Ok?
            && s.id in st.users && !st.users[s.id].hasClaimedInitialCredits && credits.TransferFailed? ==>
      r.reply == Err(Internal(ClaimFailed))
    ensures r.creditsSent > 0 && sol.TransferFailed? ==> r.reply == Err(Internal(ClaimFailed))
  {
    if !SignedIn(s) then ClaimEffects(Err(Unauthorized), st, 0, false)
    else match WalletAddress(s, isValidKey, ClaimFailed)
      case Err(f) => ClaimEffects(Err(f), st, 0, false)
      case Ok(_) =>
        if s.id !in st.users then ClaimEffects(Err(UserDataNotFound), st, 0, false)
        else
          var record := st.users[s.id];
          if record.hasClaimedInitialCredits then ClaimEffects(Ok(AlreadyClaimed(balance)), st, 0, false)
          else
            match credits
            case TransferFailed(_) => ClaimEffects(Err(Internal(ClaimFailed)), st, 0, false)
            case Sent(signature) =>
              var st1 := st.(users := st.users[s.id := record.(hasClaimedInitialCredits := true, lastSaved := now)]);
              match sol
              case TransferFailed(_) => ClaimEffects(Err(Internal(ClaimFailed)), st1, ToBaseUnits(InitialCredits), false)
              case Sent(_) => ClaimEffects(Ok(Claimed(signature, InitialCredits)), st1, ToBaseUnits(InitialCredits), true)
  }

  /** One claim call with the outcomes it met. */
  datatype ClaimCall = ClaimCall(balance: int, credits: TransferOutcome, sol: TransferOutcome, time: int)

  /** Runs one session's claim calls in order; the result is the store and
      the total credits sent. */
  function Replay(st: Store, s: Session, isValidKey: string -> bool, calls: seq<ClaimCall>): (r: (Store, int))
    ensures r.1 >= 0
    decreases |calls|
  {
    if |calls| == 0 then (st, 0)
    else
      var e := Claim(st, s, isValidKey, calls[0].balance, calls[0].credits, calls[0].sol, calls[0].time);
      var (st2, n) := Replay(e.store, s, isValidKey, calls[1..]);
      (st2, n + e.creditsSent)
  }

  /** Once the record says claimed, no claim call sends credits again. */
  lemma {:induction false} ClaimedRecordSendsNothing(st: Store, s: Session, isValidKey: string -> bool, calls: seq<ClaimCall>)
    requires s.User? && s.id in st.users && st.users[s.id].hasClaimedInitialCredits
    ensures Replay(st, s, isValidKey, calls).1 == 0
    decreases |calls|
  {
    if |calls| > 0 {
      var e := Claim(st, s, isValidKey, calls[0].balance, calls[0].credits, calls[0].sol, calls[0].time);
      ClaimedRecordSendsNothing(e.store, s, isValidKey, calls[1..]);
    }
  }

  /** Without saves in between, however many times a player calls the
      faucet, at most the 1000 starting credits leave the reward pool. Even a
      failed SOL transfer leaves the record marked. */
  lemma {:induction false} ClaimPaysAtMostOnce(st: Store, s: Session, isValidKey: string -> bool, calls: seq<ClaimCall>)
    ensures Replay(st, s, isValidKey, calls).1 <= ToBaseUnits(InitialCredits)
    decreases |calls|
  {
    if |calls| > 0 {
      var e := Claim(st, s, isValidKey, calls[0].balance, calls[0].credits, calls[0].sol, calls[0].time);
      if e.creditsSent > 0 {
        ClaimedRecordSendsNothing(e.store, s, isValidKey, calls[1..]);
      } else {
        ClaimPaysAtMostOnce(e.store, s, isValidKey, calls[1..]);
      }
    }
  }

  /** The player-record route accepts the claim flag from the client, so a
      save that sets it back to false re-opens the faucet: the next claim
      pays the starting credits again. */
  lemma SaveReopensClaim(st: Store, s: Session, isValidKey: string -> bool, walletLookup: string,
                         ship: UserDataRoute.ShipPatch, planets: seq<Planet>, base: UserDataRoute.BaseStats,
                         balance: int, credits: TransferOutcome, sol: TransferOutcome, now: int)
    requires SignedIn(s) && WalletAddress(s, isValidKey, ClaimFailed).Ok? && walletLookup != ""
    requires credits.Sent?
    ensures var st1 := Claim(st, s, isValidKey, balance, credits, sol, now).store;
      var body := UserDataRoute.SaveBody(Some("terra"), Some(ship), Some(false));
      var st2 := UserDataRoute.Save(st1, s, walletLookup, body, planets, base, now).1;
      Claim(st2, s, isValidKey, balance, credits, sol, now).creditsSent == ToBaseUnits(InitialCredits)
  {
  }
}
