/** The refuel screen: the quote it derives from the current planet, the ship
    and the credit balance, the fuel-amount input and its clamps, and the
    purchase flow. The chain transfer and the store's refuel action are
    outcomes passed in. */
module RefuelView {
  import opened Wrappers
  import opened Seqs
  import opened Models
  import opened JsParse

  const DefaultFuelPrice := 5
  const DefaultMaxFuel := 100
  const DefaultStep := 10

  /** `Math.floor(a / b)` for a non-zero divisor of either sign. */
  function FloorDiv(a: int, b: int): (r: int)
    requires b != 0
    ensures b > 0 ==> r * b <= a < (r + 1) * b
    ensures b < 0 ==> (r + 1) * b < a <= r * b
  {
    if b > 0 then a / b else (-a) / (-b)
  }

  /** The numbers the screen derives. */
  datatype Quote = Quote(fuelPrice: int, currentFuel: int, maxFuel: int, fuelNeeded: int, maxAffordable: int)

  /** The quote for the current planet and ship: a missing or zero fuel price
      counts as 5, a missing or zero maximum as 100, a missing fuel level as 0. */
  function QuoteFor(planet: Option<Planet>, ship: Option<Ship>, credits: int): (r: Quote)
    ensures r.fuelPrice != 0
    ensures r.fuelPrice == (if planet.Some? && PriceSet(planet.value.fuelPrice) then planet.value.fuelPrice.value else DefaultFuelPrice)
    ensures r.currentFuel == (if ship.Some? then ship.value.fuel else 0)
    ensures r.maxFuel == (if ship.Some? && ship.value.maxFuel != 0 then ship.value.maxFuel else DefaultMaxFuel)
    ensures r.fuelNeeded == r.maxFuel - r.currentFuel
    ensures r.fuelPrice > 0 ==> r.maxAffordable * r.fuelPrice <= credits < (r.maxAffordable + 1) * r.fuelPrice
  {
    var price := if planet.Some? && PriceSet(planet.value.fuelPrice) then planet.value.fuelPrice.value else DefaultFuelPrice;
    var current := if ship.Some? then ship.value.fuel else 0;
    var max := if ship.Some? && ship.value.maxFuel != 0 then ship.value.maxFuel else DefaultMaxFuel;
    Quote(price, current, max, max - current, FloorDiv(credits, price))
  }

  datatype RefuelState = RefuelState(fuelAmount: int, isProcessing: bool)

  function TotalCost(st: RefuelState, q: Quote): int {
    st.fuelAmount * q.fuelPrice
  }

  /** The effect run whenever the needed fuel changes: offer up to 10 units. */
  function DefaultAmount(st: RefuelState, q: Quote): (r: RefuelState)
    ensures r.fuelAmount <= DefaultStep && r.fuelAmount <= q.fuelNeeded
    ensures r.fuelAmount == DefaultStep || r.fuelAmount == q.fuelNeeded
    ensures r.isProcessing == st.isProcessing
  {
    st.(fuelAmount := Min(DefaultStep, q.fuelNeeded))
  }

  /** `handleFuelInputChange`: the input read with `parseInt` (no radix), then
      clamped to what the tank takes and the balance buys; NaN keeps the old
      amount. */
  function HandleFuelInputChange(st: RefuelState, q: Quote, value: string): (r: RefuelState)
    ensures ParseInt(value, true).None? ==> r == st
    ensures ParseInt(value, true).Some? ==>
      && r.fuelAmount <= q.fuelNeeded && r.fuelAmount <= q.maxAffordable
      && r.fuelAmount <= ParseInt(value, true).value
      && (r.fuelAmount == ParseInt(value, true).value || r.fuelAmount == q.fuelNeeded || r.fuelAmount == q.maxAffordable)
    ensures r.isProcessing == st.isProcessing
  {
    match ParseInt(value, true)
    case None => st
    case Some(v) => st.(fuelAmount := Min(v, Min(q.fuelNeeded, q.maxAffordable)))
  }

  /** `handleMaxFuel`: as much as the tank takes and the balance buys. */
  function HandleMaxFuel(st: RefuelState, q: Quote): (r: RefuelState)
    ensures r.fuelAmount <= q.fuelNeeded && r.fuelAmount <= q.maxAffordable
    ensures r.fuelAmount == q.fuelNeeded || r.fuelAmount == q.maxAffordable
    ensures r.isProcessing == st.isProcessing
  {
    st.(fuelAmount := Min(q.fuelNeeded, q.maxAffordable))
  }

  /** The purchase button's disabled condition. */
  predicate PurchaseDisabled(st: RefuelState, q: Quote, credits: int) {
    st.isProcessing || st.fuelAmount <= 0 || TotalCost(st, q) > credits || q.fuelNeeded <= 0
  }

  /** The store's answer to the refuel, whose code is not part of this model. */
  datatype StoreRefuel = Refuelled(newFuel: int) | Refused

  /** How the asynchronous steps went: whether a transfer transaction could
      be built, whether the wallet sent it, and the store's answer. */
  datatype RefuelOutcomes = RefuelOutcomes(txBuilt: bool, sent: bool, store: StoreRefuel)

  datatype RefuelEffect =
    | InvalidAmount
    | NotReady
    | TankFull
    | InsufficientCredits
    | NoTransaction
    | PaymentFailed(tokenAmount: int)
    | PaidNotRefuelled(tokenAmount: int)
    | PaidAndRefuelled(tokenAmount: int, newFuel: int)

  predicate Paid(e: RefuelEffect) {
    e.PaidNotRefuelled? || e.PaidAndRefuelled?
  }

  /** `handleFuelPurchase`. `ready` is the check for a current planet, a
      connected wallet and loaded player data. */
  function HandleFuelPurchase(st: RefuelState, q: Quote, ready: bool, credits: int, out: RefuelOutcomes)
    : (r: (RefuelState, RefuelEffect))
    ensures st.fuelAmount <= 0 ==> r == (st, InvalidAmount)
    ensures st.fuelAmount > 0 && !ready ==> r == (st, NotReady)
    ensures st.fuelAmount > 0 && ready ==> !r.0.isProcessing
    ensures Paid(r.1) <==>
      && st.fuelAmount > 0 && ready && st.fuelAmount <= q.fuelNeeded && TotalCost(st, q) <= credits
      && out.txBuilt && out.sent
    ensures r.1.PaymentFailed? || Paid(r.1) ==> r.1.tokenAmount == TotalCost(st, q) * BaseUnitsPerCredit
    ensures r.1.PaidAndRefuelled? ==> r.0.fuelAmount == Min(DefaultStep, q.maxFuel - r.1.newFuel)
    ensures !r.1.PaidAndRefuelled? ==> r.0.fuelAmount == st.fuelAmount
  {
    if st.fuelAmount <= 0 then (st, InvalidAmount)
    else if !ready then (st, NotReady)
    else
      var done := st.(isProcessing := false);
      if st.fuelAmount > q.fuelNeeded then (done, TankFull)
      else if TotalCost(st, q) > credits then (done, InsufficientCredits)
      else
        var amount := TotalCost(st, q) * BaseUnitsPerCredit;
        if !out.txBuilt then (done, NoTransaction)
        else if !out.sent then (done, PaymentFailed(amount))
        else match out.store
          case Refused => (done, PaidNotRefuelled(amount))
          case Refuelled(newFuel) =>
            (done.(fuelAmount := Min(DefaultStep, q.maxFuel - newFuel)), PaidAndRefuelled(amount, newFuel))
  }

  /** With a positive price, an amount the enabled button submits passes
      every check before the transfer: it fits the tank and the balance. */
  lemma EnabledButtonPassesChecks(st: RefuelState, q: Quote, credits: int, out: RefuelOutcomes)
    requires !PurchaseDisabled(st, q, credits) && st.fuelAmount <= q.fuelNeeded
    requires out.txBuilt && out.sent
    ensures Paid(HandleFuelPurchase(st, q, true, credits, out).1)
  {
  }

  /** Pressing "max" with a positive price yields an amount that the tank
      takes and the balance pays for. */
  lemma MaxFuelIsAffordable(st: RefuelState, planet: Option<Planet>, ship: Option<Ship>, credits: int)
    requires QuoteFor(planet, ship, credits).fuelPrice > 0
    ensures var q := QuoteFor(planet, ship, credits);
      var s1 := HandleMaxFuel(st, q);
      s1.fuelAmount <= q.fuelNeeded && (s1.fuelAmount >= 0 ==> TotalCost(s1, q) <= credits)
  {
    var q := QuoteFor(planet, ship, credits);
    var s1 := HandleMaxFuel(st, q);
    if s1.fuelAmount >= 0 {
      MulMonotone(s1.fuelAmount, q.maxAffordable, q.fuelPrice);
    }
  }

  lemma MulMonotone(a: int, b: int, p: int)
    requires 0 <= a <= b && p > 0
    ensures a * p <= b * p
  {
  }

  /** A typed amount is clamped like "max": it never exceeds what the tank
      takes, and with a positive price never costs more than the balance. */
  lemma TypedAmountIsAffordable(st: RefuelState, planet: Option<Planet>, ship: Option<Ship>, credits: int, value: string)
    requires QuoteFor(planet, ship, credits).fuelPrice > 0
    ensures var q := QuoteFor(planet, ship, credits);
      var s1 := HandleFuelInputChange(st, q, value);
      ParseInt(value, true).Some? ==> s1.fuelAmount <= q.fuelNeeded && (s1.fuelAmount >= 0 ==> TotalCost(s1, q) <= credits)
  {
    var q := QuoteFor(planet, ship, credits);
    var s1 := HandleFuelInputChange(st, q, value);
    if ParseInt(value, true).Some? && s1.fuelAmount >= 0 {
      MulMonotone(s1.fuelAmount, q.maxAffordable, q.fuelPrice);
    }
  }

  /** The transfer is made before the store is asked, so a refusal leaves
      the player charged with no fuel added. */
  lemma ChargedEvenWhenStoreRefuses(st: RefuelState, q: Quote, credits: int)
    requires st.fuelAmount > 0 && st.fuelAmount <= q.fuelNeeded && TotalCost(st, q) <= credits
    ensures HandleFuelPurchase(st, q, true, credits, RefuelOutcomes(true, true, Refused)).1
            == PaidNotRefuelled(TotalCost(st, q) * BaseUnitsPerCredit)
  {
  }
}
