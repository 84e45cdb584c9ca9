/** The blueprint mint route: after the request, session and wallet checks it
    looks the blueprint up, refuses to mint twice while the user's minted
    flag is live, mints the NFT and sets the flag for two years. */
module MintRoute {
  import opened Wrappers
  import opened Seqs
  import opened Models
  import opened Server

  /** Two years, in seconds: the life of a minted flag. */
  const MintFlagLifetime: int := 60 * 60 * 24 * 365 * 2

  const MissingBlueprintId := Failure(400, "Missing blueprintId in request")
  const MissingSignature := Failure(400, "Missing transaction signature")
  const BlueprintNotFound := Failure(404, "Blueprint not found")
  const MintFailed := "Failed to mint blueprint"

  /** The request body; empty or missing fields are `""`. */
  datatype MintRequest = MintRequest(blueprintId: string, transactionSignature: string)

  /** How the on-chain mint ended. */
  datatype MintOutcome = Minted(mintAddress: string, signature: string) | MintThrew

  /** A success reply: a fresh mint, or the note that the user already owns it. */
  datatype MintReply = NewlyMinted(mintAddress: string, signature: string, blueprintId: string) | AlreadyMinted

  /** `POST`: the reply, the store afterwards, and whether an NFT was minted
      to the user's wallet. `now` is the store's clock in seconds. */
  function Mint(st: Store, s: Session, isValidKey: string -> bool, blueprints: seq<BlueprintDefinition>,
                req: MintRequest, outcome: MintOutcome, now: int): (r: (Result<MintReply>, Store, bool))
    ensures req.blueprintId == "" ==> r == (Err(MissingBlueprintId), st, false)
    ensures req.blueprintId != "" && !SignedIn(s) ==> r == (Err(Unauthorized), st, false)
    ensures r.2 <==>
      && req.blueprintId != "" && SignedIn(s) && WalletAddress(s, isValidKey, MintFailed).Ok?
      && req.transactionSignature != ""
      && (exists i :: 0 <= i < |blueprints| && blueprints[i].id == req.blueprintId)
      && ReadFlag(st, (s.id, req.blueprintId), now) != Some("true")
      && outcome.Minted?
    ensures r.2 ==>
      && r.0 == Ok(NewlyMinted(outcome.mintAddress, outcome.signature, req.blueprintId))
      && r.1 == st.(flags := st.flags[(s.id, req.blueprintId) := FlagEntry("true", now + MintFlagLifetime)])
    ensures !r.2 ==> r.1 == st
    ensures r.0 == Ok(AlreadyMinted) <==>
      && req.blueprintId != "" && SignedIn(s) && WalletAddress(s, isValidKey, MintFailed).Ok?
      && req.transactionSignature != ""
      && (exists i :: 0 <= i < |blueprints| && blueprints[i].id == req.blueprintId)
      && ReadFlag(st, (s.id, req.blueprintId), now) == Some("true")
    ensures req.blueprintId != "" && SignedIn(s) && WalletAddress(s, isValidKey, MintFailed).Err? ==>
      r == (Err(WalletAddress(s, isValidKey, MintFailed).failure), st, false)
    ensures req.blueprintId != "" && SignedIn(s) && WalletAddress(s, isValidKey, MintFailed).Ok?
            && req.transactionSignature == "" ==>
      r == (Err(MissingSignature), st, false)
    ensures req.blueprintId != "" && SignedIn(s) && WalletAddress(s, isValidKey, MintFailed).Ok?
            && req.transactionSignature != ""
            && (forall i :: 0 <= i < |blueprints| ==> blueprints[i].id != req.blueprintId) ==>
      r == (Err(BlueprintNotFound), st, false)
    ensures req.blueprintId != "" && SignedIn(s) && WalletAddress(s, isValidKey, MintFailed).Ok?
            && req.transactionSignature != ""
            && (exists i :: 0 <= i < |blueprints| && blueprints[i].id == req.blueprintId)
            && ReadFlag(st, (s.id, req.blueprintId), now) != Some("true")
            && outcome.MintThrew? ==>
      r == (Err(Internal(MintFailed)), st, false)
  {
    if req.blueprintId == "" then (Err(MissingBlueprintId), st, false)
    else if !SignedIn(s) then (Err(Unauthorized), st, false)
    else match WalletAddress(s, isValidKey, MintFailed)
      case Err(f) => (Err(f), st, false)
      case Ok(_) =>
        if req.transactionSignature == "" then (Err(MissingSignature), st, false)
        else if Find(blueprints, (b: BlueprintDefinition) => b.id == req.blueprintId).None? then
          (Err(BlueprintNotFound), st, false)
        else
          var key := (s.id, req.blueprintId);
          if ReadFlag(st, key, now) == Some("true") then (Ok(AlreadyMinted), st, false)
          else match outcome
            case MintThrew => (Err(Internal(MintFailed)), st, false)
            case Minted(address, signature) =>
              (Ok(NewlyMinted(address, signature, req.blueprintId)),
               st.(flags := st.flags[key := FlagEntry("true", now + MintFlagLifetime)]),
               true)
  }

  /** One mint call arriving at second `time` with the chain's outcome. */
  datatype MintCall = MintCall(time: int, req: MintRequest, outcome: MintOutcome)

  /** Runs the calls of one session in order and counts the NFTs minted for
      the given blueprint. */
  function Replay(st: Store, s: Session, isValidKey: string -> bool, blueprints: seq<BlueprintDefinition>,
                  calls: seq<MintCall>, blueprintId: string): (r: (Store, nat))
    ensures r.1 <= |calls|
    decreases |calls|
  {
    if |calls| == 0 then (st, 0)
    else
      var (_, st1, minted) := Mint(st, s, isValidKey, blueprints, calls[0].req, calls[0].outcome, calls[0].time);
      var (st2, n) := Replay(st1, s, isValidKey, blueprints, calls[1..], blueprintId);
      (st2, n + (if minted && calls[0].req.blueprintId == blueprintId then 1 else 0))
  }

  /** A live "true" flag blocks every mint of that blueprint until it expires,
      and nothing a mint call does makes it expire sooner. */
  predicate Blocked(st: Store, key: (string, string), until: int) {
    key in st.flags && st.flags[key].value == "true" && st.flags[key].expiresAt >= until
  }

  lemma {:induction false} BlockedReplayMintsNothing(st: Store, s: Session, isValidKey: string -> bool,
      blueprints: seq<BlueprintDefinition>, calls: seq<MintCall>, blueprintId: string, until: int)
    requires SignedIn(s) && Blocked(st, (s.id, blueprintId), until)
    requires forall k :: 0 <= k < |calls| ==> calls[k].time < until
    ensures Replay(st, s, isValidKey, blueprints, calls, blueprintId).1 == 0
    decreases |calls|
  {
    if |calls| > 0 {
      var (_, st1, minted) := Mint(st, s, isValidKey, blueprints, calls[0].req, calls[0].outcome, calls[0].time);
      if calls[0].req.blueprintId == blueprintId {
        assert ReadFlag(st, (s.id, blueprintId), calls[0].time) == Some("true");
        assert !minted;
      }
      assert Blocked(st1, (s.id, blueprintId), until);
      BlockedReplayMintsNothing(st1, s, isValidKey, blueprints, calls[1..], blueprintId, until);
    }
  }

  /** Within the flag's two-year life, a user's calls in time order mint a
      given blueprint at most once: the first mint sets the flag, and every
      later call inside the window finds it. */
  lemma {:induction false} AtMostOneMintPerWindow(st: Store, s: Session, isValidKey: string -> bool,
      blueprints: seq<BlueprintDefinition>, calls: seq<MintCall>, blueprintId: string)
    requires SignedIn(s) && |calls| > 0
    requires forall a, b :: 0 <= a < b < |calls| ==> calls[a].time <= calls[b].time
    requires forall k :: 0 <= k < |calls| ==> calls[k].time < calls[0].time + MintFlagLifetime
    ensures Replay(st, s, isValidKey, blueprints, calls, blueprintId).1 <= 1
    decreases |calls|
  {
    var (_, st1, minted) := Mint(st, s, isValidKey, blueprints, calls[0].req, calls[0].outcome, calls[0].time);
    var rest := calls[1..];
    if minted && calls[0].req.blueprintId == blueprintId {
      assert Blocked(st1, (s.id, blueprintId), calls[0].time + MintFlagLifetime);
      BlockedReplayMintsNothing(st1, s, isValidKey, blueprints, rest, blueprintId, calls[0].time + MintFlagLifetime);
    } else if |rest| > 0 {
      assert forall a, b :: 0 <= a < b < |rest| ==> rest[a].time <= rest[b].time;
      assert forall k :: 0 <= k < |rest| ==> rest[k].time < rest[0].time + MintFlagLifetime by {
        assert calls[0].time <= rest[0].time;
      }
      AtMostOneMintPerWindow(st1, s, isValidKey, blueprints, rest, blueprintId);
    }
  }

  /** Once the flag has expired the same user can mint the blueprint again:
      the route keeps no other record of ownership. */
  lemma MintAgainAfterExpiry(st: Store, s: Session, isValidKey: string -> bool,
                             blueprints: seq<BlueprintDefinition>, req: MintRequest, outcome: MintOutcome, now: int)
    requires Mint(st, s, isValidKey, blueprints, req, outcome, now).2
    ensures var st1 := Mint(st, s, isValidKey, blueprints, req, outcome, now).1;
      Mint(st1, s, isValidKey, blueprints, req, outcome, now + MintFlagLifetime).2
  {
  }
}
