/** The market screen: its per-commodity quantity inputs, the buy and sell
    flow with its busy flag, and what each commodity row shows. The wallet,
    the chain and the server are outcomes passed in; the cargo rules are the
    game store's. */
module MarketView {
  import opened Wrappers
  import opened Seqs
  import opened Models
  import opened JsParse
  import GameStore
  import ExecuteSellRoute
  import Server

  datatype TradeKind = Buy | Sell

  /** The view's busy marker: which commodity is being traded, and how. */
  datatype TradingState = TradingState(isTrading: bool, commodityId: Option<string>, action: Option<TradeKind>)

  const Idle := TradingState(false, None, None)

  /** The view's state together with the store fields a trade writes. */
  datatype MarketState = MarketState(
    quantities: map<string, int>,
    trading: TradingState,
    storeIsTrading: bool,
    ship: Ship)

  /** The market of the player's planet: none while the planet id is empty
      or no planets are loaded. */
  function CurrentPlanet(planetId: string, planets: seq<Planet>): (r: Option<Planet>)
    ensures r.Some? ==> planetId != "" && r.value in planets && r.value.id == planetId
    ensures planetId != "" && (exists i :: 0 <= i < |planets| && planets[i].id == planetId) ==> r.Some?
  {
    if planetId == "" || |planets| == 0 then None
    else Find(planets, (p: Planet) => p.id == planetId)
  }

  /** `handleQuantityChange`: the input read with `parseInt(value, 10)`;
      NaN and negative numbers store 0. No other commodity's input changes. */
  function HandleQuantityChange(st: MarketState, commodityId: string, value: string): (r: MarketState)
    ensures commodityId in r.quantities && r.quantities[commodityId] >= 0
    ensures ParseInt(value, false).Some? && ParseInt(value, false).value >= 0 ==>
      r.quantities[commodityId] == ParseInt(value, false).value
    ensures ParseInt(value, false).None? || ParseInt(value, false).value < 0 ==> r.quantities[commodityId] == 0
    ensures forall k :: k != commodityId ==> (k in r.quantities <==> k in st.quantities)
    ensures forall k :: k != commodityId && k in st.quantities ==> r.quantities[k] == st.quantities[k]
    ensures r.trading == st.trading && r.storeIsTrading == st.storeIsTrading && r.ship == st.ship
  {
    var n := ParseInt(value, false);
    st.(quantities := st.quantities[commodityId := if n.None? || n.value < 0 then 0 else n.value])
  }

  /** Typing the numeral of a count stores that count, and a trade then
      uses it. */
  lemma TypedCountIsStored(st: MarketState, commodityId: string, n: nat)
    ensures HandleQuantityChange(st, commodityId, IntToString(n)).quantities[commodityId] == n
    ensures TradeQuantity(HandleQuantityChange(st, commodityId, IntToString(n)), commodityId) == n
  {
    ParseIntReadsNumeral(n, "", false);
    assert IntToString(n) + "" == IntToString(n);
  }

  /** Every stored input is a count, as the input handler keeps them. */
  predicate InputsAreCounts(st: MarketState) {
    forall k :: k in st.quantities ==> st.quantities[k] >= 0
  }

  /** The quantity a trade uses (`quantities[id] || 0`): the stored input, 0
      when there is none. */
  function TradeQuantity(st: MarketState, commodityId: string): (r: int)
    ensures commodityId !in st.quantities ==> r == 0
    ensures InputsAreCounts(st) ==> r >= 0
  {
    if commodityId in st.quantities then st.quantities[commodityId] else 0
  }

  /** Typing into any input keeps every input a count, so a trade never uses
      a negative quantity. */
  lemma TypingKeepsCounts(st: MarketState, commodityId: string, value: string)
    requires InputsAreCounts(st)
    ensures InputsAreCounts(HandleQuantityChange(st, commodityId, value))
    ensures TradeQuantity(HandleQuantityChange(st, commodityId, value), commodityId) >= 0
  {
  }

  /** The store's purchase check, whose code is not part of this model. */
  datatype BuyCheck = BuyCheck(canAfford: bool, hasSpace: bool)

  /** How the asynchronous steps of a trade went: the purchase check, whether
      a transfer transaction could be built, whether the wallet sent it, and
      how the sell request ended (an ok reply, an error reply, or a throw). */
  datatype SellReply = ReplyOk | ReplyError | FetchThrew
  datatype TradeOutcomes = TradeOutcomes(check: BuyCheck, txBuilt: bool, sent: bool, sellReply: SellReply)

  /** What a trade attempt did. `Bought` carries the token amount paid to the
      treasury; `Sold` the body posted to the sell route. */
  datatype TradeEffect =
    | NotReady
    | InvalidQuantity
    | CannotBuy
    | NoTransaction
    | PaymentFailed(tokenAmount: int)
    | Bought(tokenAmount: int)
    | CannotSell
    | SellFailed(request: ExecuteSellRoute.SellRequest)
    | Sold(request: ExecuteSellRoute.SellRequest)

  /** `handleTrade`. `ready` is the check for a current planet, a connected
      wallet and loaded player data; `planet` is the current planet. */
  function HandleTrade(st: MarketState, ready: bool, planet: Planet, commodityId: string, kind: TradeKind,
                       price: int, out: TradeOutcomes): (r: (MarketState, TradeEffect))
    ensures !ready ==> r == (st, NotReady)
    ensures ready ==> r.0.trading == Idle && !r.0.storeIsTrading
    ensures ready && TradeQuantity(st, commodityId) <= 0 ==> r.1 == InvalidQuantity && r.0.ship == st.ship
    ensures r.1.Bought? <==>
      ready && kind == Buy && TradeQuantity(st, commodityId) > 0 && out.check.canAfford && out.check.hasSpace
      && out.txBuilt && out.sent
    ensures r.1.Sold? <==>
      ready && kind == Sell && TradeQuantity(st, commodityId) > 0
      && GameStore.CanSellCommodity(st.ship, planet.id, commodityId, TradeQuantity(st, commodityId))
      && out.sellReply == ReplyOk
    ensures r.0.ship ==
      (if r.1.Bought? then GameStore.UpdateCargoOnBuy(st.ship, commodityId, TradeQuantity(st, commodityId))
       else if r.1.Sold? then GameStore.UpdateCargoOnSell(st.ship, commodityId, TradeQuantity(st, commodityId))
       else st.ship)
    ensures r.1.Bought? || r.1.PaymentFailed? ==>
      r.1.tokenAmount == TradeQuantity(st, commodityId) * price * BaseUnitsPerCredit
    ensures r.1.Sold? || r.1.SellFailed? ==>
      r.1.request == ExecuteSellRoute.SellRequest(Some(commodityId), Some(TradeQuantity(st, commodityId)), Some(planet.id))
    ensures r.1.Bought? || r.1.Sold? ==> r.0.quantities == st.quantities[commodityId := 0]
    ensures !(r.1.Bought? || r.1.Sold?) ==> r.0.quantities == st.quantities
  {
    if !ready then (st, NotReady)
    else
      var done := st.(trading := Idle, storeIsTrading := false);
      var q := TradeQuantity(st, commodityId);
      if q <= 0 then (done, InvalidQuantity)
      else match kind
        case Buy =>
          if !out.check.canAfford || !out.check.hasSpace then (done, CannotBuy)
          else if !out.txBuilt then (done, NoTransaction)
          else
            var amount := q * price * BaseUnitsPerCredit;
            if !out.sent then (done, PaymentFailed(amount))
            else
              (done.(ship := GameStore.UpdateCargoOnBuy(st.ship, commodityId, q),
                     quantities := st.quantities[commodityId := 0]), Bought(amount))
        case Sell =>
          if !GameStore.CanSellCommodity(st.ship, planet.id, commodityId, q) then (done, CannotSell)
          else
            var request := ExecuteSellRoute.SellRequest(Some(commodityId), Some(q), Some(planet.id));
            if out.sellReply != ReplyOk then (done, SellFailed(request))
            else
              (done.(ship := GameStore.UpdateCargoOnSell(st.ship, commodityId, q),
                     quantities := st.quantities[commodityId := 0]), Sold(request))
  }

  /** The quantity "In Cargo" shown on a row: the first matching line's
      quantity, 0 when the hold has none. With one positive line per
      commodity it is positive exactly when the hold carries the commodity. */
  function CargoQty(ship: Ship, commodityId: string): (r: int)
    ensures !GameStore.HasLine(ship.currentCargo, commodityId) ==> r == 0
    ensures GameStore.HasLine(ship.currentCargo, commodityId) ==> r == GameStore.LineQuantity(ship.currentCargo, commodityId)
    ensures GameStore.WellFormedCargo(ship.currentCargo) ==> (r > 0 <==> GameStore.HasLine(ship.currentCargo, commodityId))
  {
    match GameStore.FindLine(ship.currentCargo, commodityId)
    case Some(l) => l.quantity
    case None => 0
  }

  /** A row offers trading when its listing has a buy or a sell price set. */
  predicate IsTradable(listing: Option<Listing>) {
    listing.Some? && (PriceSet(listing.value.buyPrice) || PriceSet(listing.value.sellPrice))
  }

  /** Price fluctuation never changes which rows offer trading: unset prices
      stay unset and set ones stay at least 1. */
  lemma TradabilitySurvivesFluctuation(l: Listing, f: GameStore.Fluctuation, b: GameStore.Bump)
    ensures IsTradable(Some(GameStore.FluctuateListing(l, f, b))) <==> IsTradable(Some(l))
    ensures PriceSet(GameStore.FluctuateListing(l, f, b).buyPrice) <==> PriceSet(l.buyPrice)
    ensures PriceSet(GameStore.FluctuateListing(l, f, b).sellPrice) <==> PriceSet(l.sellPrice)
  {
  }

  /** The sell button is disabled while trading or when the hold has none.
      An enabled one means at least one unit can be sold. */
  function SellDisabled(st: MarketState, commodityId: string): (r: bool)
    ensures !r ==> !st.trading.isTrading && GameStore.HasLine(st.ship.currentCargo, commodityId)
    ensures !r ==> GameStore.LineQuantity(st.ship.currentCargo, commodityId) >= 1
    ensures GameStore.WellFormedCargo(st.ship.currentCargo) ==>
      (r <==> st.trading.isTrading || !GameStore.HasLine(st.ship.currentCargo, commodityId))
  {
    st.trading.isTrading || CargoQty(st.ship, commodityId) <= 0
  }

  /** The row's count agrees with the store's reading of the hold, and an
      enabled sell button for an entered amount up to that count is a sell
      the store allows. */
  lemma SellButtonAgreesWithStore(st: MarketState, planetId: string, commodityId: string, q: int)
    requires !SellDisabled(st, commodityId) && q <= CargoQty(st.ship, commodityId)
    ensures CargoQty(st.ship, commodityId) == GameStore.LineQuantity(st.ship.currentCargo, commodityId)
    ensures GameStore.CanSellCommodity(st.ship, planetId, commodityId, q)
  {
  }

  /** A sell the view posts always passes the route's parameter check: the
      quantity is a positive integer and the planet id is not empty. */
  lemma PostedSellIsWellFormed(st: MarketState, ready: bool, planets: seq<Planet>, planetId: string,
                               commodityId: string, price: int, out: TradeOutcomes)
    requires CurrentPlanet(planetId, planets).Some? && commodityId != ""
    ensures var e := HandleTrade(st, ready, CurrentPlanet(planetId, planets).value, commodityId, Sell, price, out).1;
      e.Sold? || e.SellFailed? ==>
        ExecuteSellRoute.Quote(e.request) != Server.Err(ExecuteSellRoute.InvalidParameters)
  {
    var planet := CurrentPlanet(planetId, planets).value;
    var e := HandleTrade(st, ready, planet, commodityId, Sell, price, out).1;
    if e.Sold? || e.SellFailed? {
      assert ExecuteSellRoute.Present(e.request.planetId) && ExecuteSellRoute.Present(e.request.commodityId);
      assert e.request.quantity.Some? && e.request.quantity.value > 0;
    }
  }

  /** A completed sale takes the quantity out of a well-formed hold: the
      hold stays well formed and its total drops by exactly that much. */
  lemma SoldCargoDrops(st: MarketState, ready: bool, planet: Planet, commodityId: string, price: int, out: TradeOutcomes)
    requires GameStore.WellFormedCargo(st.ship.currentCargo)
    requires HandleTrade(st, ready, planet, commodityId, Sell, price, out).1.Sold?
    ensures var s1 := HandleTrade(st, ready, planet, commodityId, Sell, price, out).0;
      && GameStore.WellFormedCargo(s1.ship.currentCargo)
      && GameStore.Total(s1.ship.currentCargo) == GameStore.Total(st.ship.currentCargo) - TradeQuantity(st, commodityId)
  {
    GameStore.SellRemovesQuantity(st.ship, planet.id, commodityId, TradeQuantity(st, commodityId));
  }

  /** A completed purchase adds the quantity to the commodity's line and to
      the hold's total. */
  lemma BoughtCargoGrows(st: MarketState, ready: bool, planet: Planet, commodityId: string, price: int, out: TradeOutcomes)
    requires GameStore.UniqueIds(st.ship.currentCargo)
    requires HandleTrade(st, ready, planet, commodityId, Buy, price, out).1.Bought?
    ensures var s1 := HandleTrade(st, ready, planet, commodityId, Buy, price, out).0;
      && GameStore.LineQuantity(s1.ship.currentCargo, commodityId)
           == GameStore.LineQuantity(st.ship.currentCargo, commodityId) + TradeQuantity(st, commodityId)
      && GameStore.Total(s1.ship.currentCargo) == GameStore.Total(st.ship.currentCargo) + TradeQuantity(st, commodityId)
  {
    GameStore.BuyAddsQuantity(st.ship, commodityId, TradeQuantity(st, commodityId));
  }
}
