/** The blueprint store: which blueprints the player already owns, the
    purchase button, and the purchase flow that pays the treasury and then
    asks the server to mint. Wallet, chain and server are outcomes passed in. */
module StoreModal {
  import opened Wrappers
  import opened Models
  import MintRoute

  /** Every blueprint costs 2500 credits. */
  const BlueprintPrice := 2500

  /** `isOwnedBlueprint`: some owned blueprint carries the id. An owned list
      that is not loaded, or empty, owns nothing. */
  function IsOwnedBlueprint(owned: Option<seq<ProcessedBlueprint>>, blueprintId: string): (r: bool)
    ensures r <==> owned.Some? && exists i :: 0 <= i < |owned.value| && owned.value[i].parsedAttributes.blueprintId == blueprintId
  {
    owned.Some? && |owned.value| > 0 && AnyWithId(owned.value, blueprintId)
  }

  /** `Array.prototype.some` over the owned list. */
  function AnyWithId(owned: seq<ProcessedBlueprint>, blueprintId: string): (r: bool)
    ensures r <==> exists i :: 0 <= i < |owned| && owned[i].parsedAttributes.blueprintId == blueprintId
  {
    if |owned| == 0 then false
    else
      assert forall i :: 1 <= i < |owned| ==> owned[i] == owned[1..][i - 1];
      owned[0].parsedAttributes.blueprintId == blueprintId || AnyWithId(owned[1..], blueprintId)
  }

  /** The purchase button: shown only for a blueprint not owned, disabled
      while a purchase runs or when the balance is short. */
  predicate PurchaseEnabled(isProcessing: bool, owned: Option<seq<ProcessedBlueprint>>, credits: int, blueprintId: string) {
    !IsOwnedBlueprint(owned, blueprintId) && !isProcessing && credits >= BlueprintPrice
  }

  /** How the wallet's send ended: a signature (possibly empty) or a throw. */
  datatype SendOutcome = Signed(signature: string) | SendThrew

  /** How the mint request ended: an ok reply, an error reply, or a throw. */
  datatype MintReply = MintOk | MintError | MintThrew

  datatype PurchaseOutcomes = PurchaseOutcomes(walletConnected: bool, txBuilt: bool, send: SendOutcome, mint: MintReply)

  datatype PurchaseEffect =
    | AlreadyOwned
    | NotEnoughCredits
    | WalletNotConnected
    | NoTransaction
    | PaymentFailed
    | MintFailed(request: MintRoute.MintRequest)
    | Purchased(request: MintRoute.MintRequest)

  /** Whether the effect includes a confirmed payment to the treasury. */
  predicate Paid(e: PurchaseEffect) {
    e.MintFailed? || e.Purchased?
  }

  /** `handleBlueprintPurchase`: the busy flag afterwards, what happened,
      the token amount paid (0 when nothing was paid), and whether the owned
      list is reloaded. */
  function HandleBlueprintPurchase(isProcessing: bool, owned: Option<seq<ProcessedBlueprint>>, credits: int,
                                   blueprint: BlueprintDefinition, out: PurchaseOutcomes)
    : (r: (bool, PurchaseEffect, int, bool))
    ensures IsOwnedBlueprint(owned, blueprint.id) ==> r == (isProcessing, AlreadyOwned, 0, false)
    ensures !IsOwnedBlueprint(owned, blueprint.id) && credits < BlueprintPrice ==>
      r == (isProcessing, NotEnoughCredits, 0, false)
    ensures !IsOwnedBlueprint(owned, blueprint.id) && credits >= BlueprintPrice ==> !r.0
    ensures Paid(r.1) <==>
      && !IsOwnedBlueprint(owned, blueprint.id) && credits >= BlueprintPrice
      && out.walletConnected && out.txBuilt && out.send.Signed? && out.send.signature != ""
    ensures Paid(r.1) ==> r.2 == BlueprintPrice * BaseUnitsPerCredit
                          && r.1.request == MintRoute.MintRequest(blueprint.id, out.send.signature)
    ensures !Paid(r.1) ==> r.2 == 0
    ensures r.3 <==> r.1.Purchased?
    ensures r.1.Purchased? <==> Paid(r.1) && out.mint == MintOk
  {
    if IsOwnedBlueprint(owned, blueprint.id) then (isProcessing, AlreadyOwned, 0, false)
    else if credits < BlueprintPrice then (isProcessing, NotEnoughCredits, 0, false)
    else if !out.walletConnected then (false, WalletNotConnected, 0, false)
    else if !out.txBuilt then (false, NoTransaction, 0, false)
    else match out.send
      case SendThrew => (false, PaymentFailed, 0, false)
      case Signed(signature) =>
        if signature == "" then (false, PaymentFailed, 0, false)
        else
          var request := MintRoute.MintRequest(blueprint.id, signature);
          var amount := BlueprintPrice * BaseUnitsPerCredit;
          if out.mint == MintOk then (false, Purchased(request), amount, true)
          else (false, MintFailed(request), amount, false)
  }

  /** The purchase never pays for a blueprint the owned list already has. */
  lemma NoPaymentForOwned(isProcessing: bool, owned: seq<ProcessedBlueprint>, credits: int,
                          blueprint: BlueprintDefinition, out: PurchaseOutcomes, i: int)
    requires 0 <= i < |owned| && owned[i].parsedAttributes.blueprintId == blueprint.id
    ensures HandleBlueprintPurchase(isProcessing, Some(owned), credits, blueprint, out).2 == 0
  {
  }

  /** The button is enabled exactly when the flow gets past its two up-front
      checks, and a press then always clears the busy flag. */
  lemma EnabledButtonReachesWallet(owned: Option<seq<ProcessedBlueprint>>, credits: int,
                                   blueprint: BlueprintDefinition, out: PurchaseOutcomes)
    requires PurchaseEnabled(false, owned, credits, blueprint.id)
    ensures var r := HandleBlueprintPurchase(false, owned, credits, blueprint, out);
      !r.1.AlreadyOwned? && !r.1.NotEnoughCredits? && !r.0
  {
  }

  /** The request the store posts passes the mint route's request checks
      whenever the blueprint has an id: it always carries a signature. */
  lemma PostedMintRequestIsComplete(isProcessing: bool, owned: Option<seq<ProcessedBlueprint>>, credits: int,
                                    blueprint: BlueprintDefinition, out: PurchaseOutcomes)
    requires blueprint.id != ""
    ensures var e := HandleBlueprintPurchase(isProcessing, owned, credits, blueprint, out).1;
      Paid(e) ==> e.request.blueprintId != "" && e.request.transactionSignature != ""
  {
  }

  /** Payment comes before minting, so a failed mint leaves the player
      charged 2500 credits with nothing minted. */
  lemma ChargedEvenWhenMintFails(owned: Option<seq<ProcessedBlueprint>>, credits: int,
                                 blueprint: BlueprintDefinition, signature: string)
    requires !IsOwnedBlueprint(owned, blueprint.id) && credits >= BlueprintPrice && signature != ""
    ensures var r := HandleBlueprintPurchase(false, owned, credits, blueprint,
                       PurchaseOutcomes(true, true, Signed(signature), MintError));
      r.1.MintFailed? && r.2 == 2_500_000_000 && !r.3
  {
  }
}
