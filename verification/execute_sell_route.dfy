/** The sell route: checks a sell request against the static planet and
    commodity tables and pays the player from the treasury at the table's
    sell price. The client's cargo and its perturbed prices play no part. */
module ExecuteSellRoute {
  import opened Wrappers
  import opened Seqs
  import opened Models
  import opened Server
  import GameStore

  /** The request body. `quantity` is `None` unless the JSON value is an
      integer; an empty or missing id is `None` or `""` alike. */
  datatype SellRequest = SellRequest(commodityId: Option<string>, quantity: Option<int>, planetId: Option<string>)

  /** The treasury transfer the route asks for. */
  datatype Payout = Payout(recipient: string, baseUnits: int)

  datatype SellReply = SellReply(signature: string, creditsAwarded: int)

  const InvalidParameters := Failure(400, "Invalid request parameters")
  const InvalidPlanet := Failure(400, "Invalid planet ID")
  const NotBoughtHere := Failure(400, "Commodity not bought at this planet or no sell price")
  const InvalidCommodity := Failure(400, "Invalid commodity ID")
  const SellFailed := "Failed to execute sell trade"

  predicate Present(s: Option<string>) {
    s.Some? && s.value != ""
  }

  /** The route's parameter check: a non-empty commodity id, a positive
      integer quantity and a non-empty planet id. */
  predicate ParamsValid(req: SellRequest) {
    Present(req.commodityId) && req.quantity.Some? && req.quantity.value > 0 && Present(req.planetId)
  }

  /** The validated quote against the given planet and commodity tables:
      the request names a positive integer quantity, a known planet, a
      listing there with a set sell price, and a known commodity. The
      lookups fail in that order, each with its own 400. */
  function QuoteIn(planets: seq<Planet>, commodities: seq<Commodity>, req: SellRequest): (r: Result<int>)
    ensures r.Ok? ==>
      && ParamsValid(req)
      && exists i, j :: 0 <= i < |planets| && planets[i].id == req.planetId.value
           && 0 <= j < |planets[i].listings|
           && planets[i].listings[j].commodityId == req.commodityId.value
           && PriceSet(planets[i].listings[j].sellPrice)
           && r.value == planets[i].listings[j].sellPrice.value
    ensures r.Ok? ==> exists k :: 0 <= k < |commodities| && commodities[k].id == req.commodityId.value
    ensures r.Err? ==> r.failure.status == 400
    ensures !ParamsValid(req) <==> r == Err(InvalidParameters)
    ensures ParamsValid(req) ==>
      ((forall i :: 0 <= i < |planets| ==> planets[i].id != req.planetId.value) <==> r == Err(InvalidPlanet))
    ensures ParamsValid(req) ==>
      forall i :: 0 <= i < |planets| && planets[i].id == req.planetId.value
        && (forall k :: 0 <= k < i ==> planets[k].id != req.planetId.value)
        && (forall j :: 0 <= j < |planets[i].listings| ==> planets[i].listings[j].commodityId != req.commodityId.value)
        ==> r == Err(NotBoughtHere)
    ensures r == Err(InvalidCommodity) ==>
      && ParamsValid(req)
      && (forall k :: 0 <= k < |commodities| ==> commodities[k].id != req.commodityId.value)
      && exists i, j :: 0 <= i < |planets| && planets[i].id == req.planetId.value
           && 0 <= j < |planets[i].listings|
           && planets[i].listings[j].commodityId == req.commodityId.value
           && PriceSet(planets[i].listings[j].sellPrice)
  {
    if !ParamsValid(req) then
      Err(InvalidParameters)
    else
      match Find(planets, (p: Planet) => p.id == req.planetId.value)
      case None => Err(InvalidPlanet)
      case Some(planet) =>
        match Find(planet.listings, (l: Listing) => l.commodityId == req.commodityId.value)
        case None => Err(NotBoughtHere)
        case Some(listing) =>
          if !PriceSet(listing.sellPrice) then Err(NotBoughtHere)
          else if Find(commodities, (c: Commodity) => c.id == req.commodityId.value).None? then
            Err(InvalidCommodity)
          else Ok(listing.sellPrice.value)
  }

  /** The route quotes against the static tables of the game. */
  function Quote(req: SellRequest): Result<int> {
    QuoteIn(GameStore.PlanetsData, GameStore.CommoditiesData, req)
  }

  /** `POST`: the reply and the transfer it requested, if any. The transfer's
      outcome is a parameter. */
  function ExecuteSell(s: Session, isValidKey: string -> bool, req: SellRequest, transfer: TransferOutcome)
    : (r: (Result<SellReply>, Option<Payout>))
    ensures !SignedIn(s) ==> r == (Err(Unauthorized), None)
    ensures r.1.Some? <==> SignedIn(s) && WalletAddress(s, isValidKey, SellFailed).Ok? && Quote(req).Ok?
    ensures r.1.Some? ==>
      && r.1.value.recipient == s.solana.value
      && r.1.value.baseUnits == ToBaseUnits(req.quantity.value * Quote(req).value)
    ensures r.0.Ok? <==> r.1.Some? && transfer.Sent?
    ensures r.0.Ok? ==>
      && r.0.value.signature == transfer.signature
      && r.0.value.creditsAwarded == r.1.value.baseUnits / BaseUnitsPerCredit
    ensures r.1.Some? && transfer.TransferFailed? ==> r.0 == Err(Internal(SellFailed))
    ensures SignedIn(s) && WalletAddress(s, isValidKey, SellFailed).Err? ==>
      r == (Err(WalletAddress(s, isValidKey, SellFailed).failure), None)
    ensures SignedIn(s) && WalletAddress(s, isValidKey, SellFailed).Ok? && Quote(req).Err? ==>
      r == (Err(Quote(req).failure), None)
  {
    if !SignedIn(s) then (Err(Unauthorized), None)
    else match WalletAddress(s, isValidKey, SellFailed)
      case Err(f) => (Err(f), None)
      case Ok(address) =>
        match Quote(req)
        case Err(f) => (Err(f), None)
        case Ok(price) =>
          var payout := Payout(address, ToBaseUnits(req.quantity.value * price));
          match transfer
          case TransferFailed(_) => (Err(Internal(SellFailed)), Some(payout))
          case Sent(signature) =>
            (Ok(SellReply(signature, payout.baseUnits / BaseUnitsPerCredit)), Some(payout))
  }

  /** Every sell price in the static tables is positive. */
  lemma StaticSellPricesPositive(i: int, j: int)
    requires 0 <= i < |GameStore.PlanetsData| && 0 <= j < |GameStore.PlanetsData[i].listings|
    requires GameStore.PlanetsData[i].listings[j].sellPrice.Some?
    ensures GameStore.PlanetsData[i].listings[j].sellPrice.value > 0
  {
  }

  /** A requested payout is never empty: the quantity is positive and so is
      every sell price in the tables. */
  lemma PayoutPositive(s: Session, isValidKey: string -> bool, req: SellRequest, transfer: TransferOutcome)
    requires ExecuteSell(s, isValidKey, req, transfer).1.Some?
    ensures ExecuteSell(s, isValidKey, req, transfer).1.value.baseUnits >= BaseUnitsPerCredit
  {
    var q := Quote(req);
    var i, j :| 0 <= i < |GameStore.PlanetsData| && GameStore.PlanetsData[i].id == req.planetId.value
           && 0 <= j < |GameStore.PlanetsData[i].listings|
           && GameStore.PlanetsData[i].listings[j].commodityId == req.commodityId.value
           && PriceSet(GameStore.PlanetsData[i].listings[j].sellPrice)
           && q.value == GameStore.PlanetsData[i].listings[j].sellPrice.value;
    StaticSellPricesPositive(i, j);
    var n := req.quantity.value * q.value;
    assert n >= 1 by {
      assert req.quantity.value >= 1 && q.value >= 1;
      MulAtLeastOne(req.quantity.value, q.value);
    }
  }

  lemma MulAtLeastOne(a: int, b: int)
    requires a >= 1 && b >= 1
    ensures a * b >= 1
  {
  }

  /** Selling 3 raw minerals at Terra Prime pays 150 credits, whatever the
      client shows: the price is the table's 50. */
  lemma SellOreAtTerra(wallet: string, isValidKey: string -> bool, signature: string)
    requires wallet != "" && isValidKey(wallet)
    ensures ExecuteSell(User("u1", Some(wallet)), isValidKey,
                        SellRequest(Some("ore"), Some(3), Some("terra")), Sent(signature))
            == (Ok(SellReply(signature, 150)), Some(Payout(wallet, 150_000_000)))
  {
    TerraOreQuote();
  }

  lemma TerraOreQuote()
    ensures Quote(SellRequest(Some("ore"), Some(3), Some("terra"))) == Ok(50)
  {
    var planets := GameStore.PlanetsData;
    assert planets[0].id == "terra";
    var ls := planets[0].listings;
    assert ls[2].commodityId == "ore" && ls[0].commodityId != "ore" && ls[1].commodityId != "ore";
    assert GameStore.CommoditiesData[2].id == "ore";
    QuoteFromTables(planets, GameStore.CommoditiesData, SellRequest(Some("ore"), Some(3), Some("terra")), 0, 2);
  }

  /** The quote of a well-formed request, given where its planet and listing
      first occur in the tables. */
  lemma QuoteFromTables(planets: seq<Planet>, commodities: seq<Commodity>, req: SellRequest, i: nat, j: nat)
    requires ParamsValid(req)
    requires i < |planets| && planets[i].id == req.planetId.value
    requires forall k :: 0 <= k < i ==> planets[k].id != req.planetId.value
    requires j < |planets[i].listings|
    requires planets[i].listings[j].commodityId == req.commodityId.value
    requires forall k :: 0 <= k < j ==> planets[i].listings[k].commodityId != req.commodityId.value
    ensures var price := planets[i].listings[j].sellPrice;
      QuoteIn(planets, commodities, req) ==
        if !PriceSet(price) then Err(NotBoughtHere)
        else if forall k :: 0 <= k < |commodities| ==> commodities[k].id != req.commodityId.value then Err(InvalidCommodity)
        else Ok(price.value)
  {
    FindFirst(planets, (p: Planet) => p.id == req.planetId.value, i);
    FindFirst(planets[i].listings, (l: Listing) => l.commodityId == req.commodityId.value, j);
  }

  /** A planet that does not buy the commodity turns the request away before
      any transfer: Mars Colony has no sell price for raw minerals. */
  lemma MarsDoesNotBuyOre(s: Session, isValidKey: string -> bool, transfer: TransferOutcome)
    ensures ExecuteSell(s, isValidKey, SellRequest(Some("ore"), Some(1), Some("mars")), transfer).1.None?
  {
    MarsOreQuote();
  }

  lemma MarsOreQuote()
    ensures Quote(SellRequest(Some("ore"), Some(1), Some("mars"))) == Err(NotBoughtHere)
  {
    var planets := GameStore.PlanetsData;
    assert planets[1].id == "mars" && planets[0].id != "mars";
    var ls := planets[1].listings;
    assert ls[2].commodityId == "ore" && ls[0].commodityId != "ore" && ls[1].commodityId != "ore";
    assert !PriceSet(ls[2].sellPrice);
    QuoteFromTables(planets, GameStore.CommoditiesData, SellRequest(Some("ore"), Some(1), Some("mars")), 1, 2);
  }
}
