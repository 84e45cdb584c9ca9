/** The game's rule layer as held by the client-side store: the ship's cargo
    rules (capacity check, buy merge, sell check and pruning), the partial stat
    merge, travel with its fuel cost, and the price perturbation applied after
    each arrival. Every action is a pure function from the old state to the
    new one; the store's random draws are parameters. */
module GameStore {
  import opened Wrappers
  import opened Seqs
  import opened Models
  import opened Geometry

  datatype GameState = GameState(
    currentPlanetId: Option<string>,
    ship: Ship,
    planets: seq<Planet>,
    commodities: seq<Commodity>,
    isTraveling: bool,
    isTrading: bool)

  /** The stats a caller may overwrite; `None` is a field left out of the update. */
  datatype ShipStats = ShipStats(cargoCapacity: Option<int>, maxFuel: Option<int>)

  // ---------------------------------------------------------------------------
  // Static data and the initial state

  const CommoditiesData: seq<Commodity> := [
    Commodity("water", "Purified Water", "", None),
    Commodity("food", "Nutri-Paste", "", None),
    Commodity("ore", "Raw Minerals", "", None),
    Commodity("tech", "Tech Components", "", None)
  ]

  const PlanetsData: seq<Planet> := [
    Planet("terra", "Terra Prime", "", Point(100, 100), [
      Listing("water", Some(10), Some(8), None),
      Listing("food", Some(20), Some(18), None),
      Listing("ore", None, Some(50), None)
    ], None),
    Planet("mars", "Mars Colony", "", Point(250, 150), [
      Listing("water", None, Some(15), None),
      Listing("food", None, Some(25), None),
      Listing("ore", Some(40), None, None),
      Listing("tech", Some(200), Some(180), None)
    ], None),
    Planet("europa", "Europa Outpost", "", Point(150, 300), [
      Listing("water", Some(5), Some(3), None),
      Listing("tech", None, Some(220), None)
    ], None)
  ]

  const InitialShip: Ship := Ship("Stardust Hopper", 20, [], 100, 100)

  const InitialState: GameState :=
    GameState(Some(PlanetsData[0].id), InitialShip, PlanetsData, CommoditiesData, false, false)

  // ---------------------------------------------------------------------------
  // Cargo

  /** Sum of the quantities of all cargo lines. */
  function Total(cargo: seq<CargoLine>): int {
    if |cargo| == 0 then 0 else cargo[0].quantity + Total(cargo[1..])
  }

  /** The left fold `cargo.reduce((sum, item) => sum + item.quantity, acc)`. */
  function Reduce(cargo: seq<CargoLine>, acc: int): int {
    if |cargo| == 0 then acc else Reduce(cargo[1..], acc + cargo[0].quantity)
  }

  lemma {:induction false} ReduceIsTotal(cargo: seq<CargoLine>, acc: int)
    ensures Reduce(cargo, acc) == acc + Total(cargo)
  {
    if |cargo| > 0 {
      ReduceIsTotal(cargo[1..], acc + cargo[0].quantity);
    }
  }

  lemma {:induction false} TotalAppend(a: seq<CargoLine>, b: seq<CargoLine>)
    ensures Total(a + b) == Total(a) + Total(b)
  {
    if |a| > 0 {
      assert (a + b)[1..] == a[1..] + b;
      TotalAppend(a[1..], b);
    } else {
      assert a + b == b;
    }
  }

  predicate HasLine(cargo: seq<CargoLine>, commodityId: string) {
    exists i :: 0 <= i < |cargo| && cargo[i].commodityId == commodityId
  }

  /** No two cargo lines share a commodity. */
  predicate UniqueIds(cargo: seq<CargoLine>) {
    forall i, j :: 0 <= i < j < |cargo| ==> cargo[i].commodityId != cargo[j].commodityId
  }

  predicate AllPositive(cargo: seq<CargoLine>) {
    forall i :: 0 <= i < |cargo| ==> cargo[i].quantity > 0
  }

  predicate AllNonNegative(cargo: seq<CargoLine>) {
    forall i :: 0 <= i < |cargo| ==> cargo[i].quantity >= 0
  }

  /** The cargo invariant the store keeps: one line per commodity, none empty. */
  predicate WellFormedCargo(cargo: seq<CargoLine>) {
    UniqueIds(cargo) && AllPositive(cargo)
  }

  predicate WithinCapacity(ship: Ship) {
    Total(ship.currentCargo) <= ship.cargoCapacity
  }

  predicate MatchesCommodity(line: CargoLine, commodityId: string) {
    line.commodityId == commodityId
  }

  /** The first cargo line for a commodity (`currentCargo.find(...)`). */
  function FindLine(cargo: seq<CargoLine>, commodityId: string): (r: Option<CargoLine>)
    ensures r.None? <==> !HasLine(cargo, commodityId)
    ensures r.Some? ==> r.value in cargo && r.value.commodityId == commodityId
  {
    Find(cargo, (l: CargoLine) => MatchesCommodity(l, commodityId))
  }

  /** Quantity of the commodity in the hold as the game reads it: the first
      matching line's quantity, or 0 when there is none. */
  function LineQuantity(cargo: seq<CargoLine>, commodityId: string): int {
    match FindLine(cargo, commodityId)
    case Some(l) => l.quantity
    case None => 0
  }

  /** With one line per commodity, the quantity read is that line's. */
  lemma LineQuantityAt(cargo: seq<CargoLine>, i: int)
    requires UniqueIds(cargo)
    requires 0 <= i < |cargo|
    ensures LineQuantity(cargo, cargo[i].commodityId) == cargo[i].quantity
  {
    var r := FindLine(cargo, cargo[i].commodityId);
    var k :| 0 <= k < |cargo| && cargo[k] == r.value;
    assert cargo[k].commodityId == cargo[i].commodityId;
  }

  /** `canBuyCommodity`: the planet and the price play no part; only the free
      hold space is checked. */
  function CanBuyCommodity(ship: Ship, planetId: string, commodityId: string, quantity: int, price: int): (r: bool)
    ensures r <==> Total(ship.currentCargo) + quantity <= ship.cargoCapacity
  {
    ReduceIsTotal(ship.currentCargo, 0);
    Reduce(ship.currentCargo, 0) + quantity <= ship.cargoCapacity
  }

  /** Adds `delta` to every line of the commodity (the `.map` in the store). */
  function Adjust(cargo: seq<CargoLine>, commodityId: string, delta: int): (r: seq<CargoLine>)
    ensures |r| == |cargo|
    ensures forall i :: 0 <= i < |cargo| ==>
      r[i] == (if cargo[i].commodityId == commodityId
               then cargo[i].(quantity := cargo[i].quantity + delta) else cargo[i])
  {
    if |cargo| == 0 then []
    else
      var head := if cargo[0].commodityId == commodityId
                  then cargo[0].(quantity := cargo[0].quantity + delta) else cargo[0];
      [head] + Adjust(cargo[1..], commodityId, delta)
  }

  /** Keeps the lines whose quantity is positive (the `.filter` in the store). */
  function KeepPositive(cargo: seq<CargoLine>): (r: seq<CargoLine>)
    ensures |r| <= |cargo|
    ensures AllPositive(r)
  {
    if |cargo| == 0 then []
    else (if cargo[0].quantity > 0 then [cargo[0]] else []) + KeepPositive(cargo[1..])
  }

  /** Every kept line is a line of the hold. */
  lemma {:induction false} KeepPositiveSound(cargo: seq<CargoLine>, x: CargoLine)
    requires x in KeepPositive(cargo)
    ensures x in cargo && x.quantity > 0
    decreases |cargo|
  {
    var head := if cargo[0].quantity > 0 then [cargo[0]] else [];
    assert KeepPositive(cargo) == head + KeepPositive(cargo[1..]);
    if x !in head {
      KeepPositiveSound(cargo[1..], x);
    }
  }

  /** Every line with a positive quantity is kept. */
  lemma {:induction false} KeepPositiveComplete(cargo: seq<CargoLine>, x: CargoLine)
    requires x in cargo && x.quantity > 0
    ensures x in KeepPositive(cargo)
    decreases |cargo|
  {
    var head := if cargo[0].quantity > 0 then [cargo[0]] else [];
    assert KeepPositive(cargo) == head + KeepPositive(cargo[1..]);
    if x != cargo[0] {
      assert x in cargo[1..];
      KeepPositiveComplete(cargo[1..], x);
    }
  }

  lemma {:induction false} AdjustTotal(cargo: seq<CargoLine>, commodityId: string, delta: int, i: int)
    requires UniqueIds(cargo)
    requires 0 <= i < |cargo| && cargo[i].commodityId == commodityId
    ensures Total(Adjust(cargo, commodityId, delta)) == Total(cargo) + delta
  {
    var a := Adjust(cargo, commodityId, delta);
    assert a[0] == (if cargo[0].commodityId == commodityId then cargo[0].(quantity := cargo[0].quantity + delta) else cargo[0]);
    assert a[1..] == Adjust(cargo[1..], commodityId, delta);
    if i == 0 {
      AdjustAbsent(cargo[1..], commodityId, delta);
    } else {
      AdjustTotal(cargo[1..], commodityId, delta, i - 1);
    }
  }

  /** Adjusting a commodity the hold does not carry changes nothing. */
  lemma AdjustAbsent(cargo: seq<CargoLine>, commodityId: string, delta: int)
    requires !HasLine(cargo, commodityId)
    ensures Adjust(cargo, commodityId, delta) == cargo
  {
  }

  lemma {:induction false} KeepPositiveTotal(cargo: seq<CargoLine>)
    requires AllNonNegative(cargo)
    ensures Total(KeepPositive(cargo)) == Total(cargo)
  {
    if |cargo| > 0 {
      KeepPositiveTotal(cargo[1..]);
      TotalAppend(if cargo[0].quantity > 0 then [cargo[0]] else [], KeepPositive(cargo[1..]));
    }
  }

  lemma {:induction false} KeepPositiveUnique(cargo: seq<CargoLine>)
    requires UniqueIds(cargo)
    ensures UniqueIds(KeepPositive(cargo))
  {
    if |cargo| > 0 {
      KeepPositiveUnique(cargo[1..]);
      var rest := KeepPositive(cargo[1..]);
      forall x | x in rest
        ensures x.commodityId != cargo[0].commodityId
      {
        KeepPositiveSound(cargo[1..], x);
        var k :| 0 <= k < |cargo[1..]| && cargo[1..][k] == x;
        assert cargo[k + 1] == x;
      }
    }
  }

  /** `updateCargoOnBuy`: raises the commodity's line, or appends a new line at
      the end when the hold has none. Nothing but the cargo changes, and the
      other lines keep their place and contents. */
  function UpdateCargoOnBuy(ship: Ship, commodityId: string, quantity: int): (r: Ship)
    ensures r == ship.(currentCargo := r.currentCargo)
    ensures HasLine(ship.currentCargo, commodityId) ==> |r.currentCargo| == |ship.currentCargo|
    ensures !HasLine(ship.currentCargo, commodityId) ==>
      r.currentCargo == ship.currentCargo + [CargoLine(commodityId, quantity)]
    ensures forall i :: 0 <= i < |ship.currentCargo| && ship.currentCargo[i].commodityId != commodityId ==>
      r.currentCargo[i] == ship.currentCargo[i]
  {
    match FindLine(ship.currentCargo, commodityId)
    case Some(_) => ship.(currentCargo := Adjust(ship.currentCargo, commodityId, quantity))
    case None => ship.(currentCargo := ship.currentCargo + [CargoLine(commodityId, quantity)])
  }

  /** Adjusting quantities keeps every line's commodity, so one line per
      commodity stays one line per commodity. */
  lemma AdjustKeepsUnique(cargo: seq<CargoLine>, commodityId: string, delta: int)
    requires UniqueIds(cargo)
    ensures UniqueIds(Adjust(cargo, commodityId, delta))
  {
    var a := Adjust(cargo, commodityId, delta);
    assert forall j :: 0 <= j < |a| ==> a[j].commodityId == cargo[j].commodityId;
  }

  /** Buying a commodity already in the hold. */
  lemma BuyExistingLine(cargo: seq<CargoLine>, commodityId: string, quantity: int, i: int)
    requires UniqueIds(cargo)
    requires 0 <= i < |cargo| && cargo[i].commodityId == commodityId
    ensures UniqueIds(Adjust(cargo, commodityId, quantity))
    ensures Total(Adjust(cargo, commodityId, quantity)) == Total(cargo) + quantity
    ensures LineQuantity(Adjust(cargo, commodityId, quantity), commodityId) == LineQuantity(cargo, commodityId) + quantity
  {
    var r := Adjust(cargo, commodityId, quantity);
    AdjustTotal(cargo, commodityId, quantity, i);
    AdjustKeepsUnique(cargo, commodityId, quantity);
    assert r[i] == cargo[i].(quantity := cargo[i].quantity + quantity);
    LineQuantityAt(cargo, i);
    LineQuantityAt(r, i);
  }

  /** Buying a commodity the hold does not carry. */
  lemma BuyNewLine(cargo: seq<CargoLine>, commodityId: string, quantity: int)
    requires UniqueIds(cargo)
    requires !HasLine(cargo, commodityId)
    ensures UniqueIds(cargo + [CargoLine(commodityId, quantity)])
    ensures Total(cargo + [CargoLine(commodityId, quantity)]) == Total(cargo) + quantity
    ensures LineQuantity(cargo + [CargoLine(commodityId, quantity)], commodityId) == LineQuantity(cargo, commodityId) + quantity
  {
    var r := cargo + [CargoLine(commodityId, quantity)];
    TotalAppend(cargo, [CargoLine(commodityId, quantity)]);
    assert Total([CargoLine(commodityId, quantity)]) == quantity;
    assert forall j :: 0 <= j < |cargo| ==> r[j] == cargo[j];
    assert UniqueIds(r);
    LineQuantityAt(r, |cargo|);
  }

  /** A buy adds exactly `quantity` to the commodity and to the total, and
      never creates a second line for a commodity. */
  lemma BuyAddsQuantity(ship: Ship, commodityId: string, quantity: int)
    requires UniqueIds(ship.currentCargo)
    ensures UniqueIds(UpdateCargoOnBuy(ship, commodityId, quantity).currentCargo)
    ensures Total(UpdateCargoOnBuy(ship, commodityId, quantity).currentCargo) == Total(ship.currentCargo) + quantity
    ensures LineQuantity(UpdateCargoOnBuy(ship, commodityId, quantity).currentCargo, commodityId)
            == LineQuantity(ship.currentCargo, commodityId) + quantity
  {
    var c := ship.currentCargo;
    if HasLine(c, commodityId) {
      var i :| 0 <= i < |c| && c[i].commodityId == commodityId;
      assert UpdateCargoOnBuy(ship, commodityId, quantity).currentCargo == Adjust(c, commodityId, quantity);
      BuyExistingLine(c, commodityId, quantity, i);
    } else {
      assert UpdateCargoOnBuy(ship, commodityId, quantity).currentCargo == c + [CargoLine(commodityId, quantity)];
      BuyNewLine(c, commodityId, quantity);
    }
  }

  /** A buy the capacity check allowed leaves the hold within capacity. */
  lemma BuyKeepsCapacity(ship: Ship, planetId: string, commodityId: string, quantity: int, price: int)
    requires UniqueIds(ship.currentCargo)
    requires CanBuyCommodity(ship, planetId, commodityId, quantity, price)
    ensures WithinCapacity(UpdateCargoOnBuy(ship, commodityId, quantity))
  {
    BuyAddsQuantity(ship, commodityId, quantity);
  }

  /** `canSellCommodity`: the first line of the commodity holds at least
      `quantity`. The planet plays no part. */
  function CanSellCommodity(ship: Ship, planetId: string, commodityId: string, quantity: int): (r: bool)
    ensures r ==> HasLine(ship.currentCargo, commodityId)
    ensures r <==> HasLine(ship.currentCargo, commodityId) && LineQuantity(ship.currentCargo, commodityId) >= quantity
  {
    match FindLine(ship.currentCargo, commodityId)
    case Some(l) => l.quantity >= quantity
    case None => false
  }

  /** With one line per commodity: selling is allowed exactly when some line of
      the commodity holds enough. */
  lemma CanSellIffEnough(ship: Ship, planetId: string, commodityId: string, quantity: int)
    requires UniqueIds(ship.currentCargo)
    ensures CanSellCommodity(ship, planetId, commodityId, quantity) <==>
      exists i :: 0 <= i < |ship.currentCargo| && ship.currentCargo[i].commodityId == commodityId
                  && ship.currentCargo[i].quantity >= quantity
  {
    var c := ship.currentCargo;
    if HasLine(c, commodityId) {
      var i :| 0 <= i < |c| && c[i].commodityId == commodityId;
      LineQuantityAt(c, i);
      forall j | 0 <= j < |c| && c[j].commodityId == commodityId
        ensures j == i
      {
      }
    }
  }

  /** `updateCargoOnSell`: lowers the commodity's line, then drops every line
      whose quantity is not positive. Nothing but the cargo changes. */
  function UpdateCargoOnSell(ship: Ship, commodityId: string, quantity: int): (r: Ship)
    ensures r == ship.(currentCargo := r.currentCargo)
    ensures AllPositive(r.currentCargo)
    ensures |r.currentCargo| <= |ship.currentCargo|
  {
    ship.(currentCargo := KeepPositive(Adjust(ship.currentCargo, commodityId, -quantity)))
  }

  /** Selling one commodity keeps every positive line of the others. */
  lemma SellKeepsOtherLines(ship: Ship, commodityId: string, quantity: int, i: int)
    requires 0 <= i < |ship.currentCargo|
    requires ship.currentCargo[i].commodityId != commodityId && ship.currentCargo[i].quantity > 0
    ensures ship.currentCargo[i] in UpdateCargoOnSell(ship, commodityId, quantity).currentCargo
  {
    var a := Adjust(ship.currentCargo, commodityId, -quantity);
    assert a[i] == ship.currentCargo[i];
    KeepPositiveComplete(a, a[i]);
    assert UpdateCargoOnSell(ship, commodityId, quantity).currentCargo == KeepPositive(a);
  }

  lemma KeepPositiveWellFormed(cargo: seq<CargoLine>)
    requires UniqueIds(cargo)
    ensures WellFormedCargo(KeepPositive(cargo))
  {
    KeepPositiveUnique(cargo);
  }

  /** After lowering the sold line by at most its quantity, no line is negative. */
  lemma SoldCargoNonNegative(cargo: seq<CargoLine>, commodityId: string, quantity: int, i: int)
    requires WellFormedCargo(cargo)
    requires 0 <= i < |cargo| && cargo[i].commodityId == commodityId && cargo[i].quantity >= quantity
    ensures AllNonNegative(Adjust(cargo, commodityId, -quantity))
  {
    var a := Adjust(cargo, commodityId, -quantity);
    forall j | 0 <= j < |cargo|
      ensures a[j].quantity >= 0
    {
      if cargo[j].commodityId == commodityId {
        assert j == i;
      }
    }
  }

  /** Lowering the line at `i` by at most its quantity and pruning removes
      exactly that quantity from the total. */
  lemma SellFromLineTotal(cargo: seq<CargoLine>, commodityId: string, quantity: int, i: int)
    requires WellFormedCargo(cargo)
    requires 0 <= i < |cargo| && cargo[i].commodityId == commodityId && cargo[i].quantity >= quantity
    ensures Total(KeepPositive(Adjust(cargo, commodityId, -quantity))) == Total(cargo) - quantity
  {
    var a := Adjust(cargo, commodityId, -quantity);
    AdjustTotal(cargo, commodityId, -quantity, i);
    assert Total(a) == Total(cargo) - quantity;
    SoldCargoNonNegative(cargo, commodityId, quantity, i);
    KeepPositiveTotal(a);
    assert Total(KeepPositive(a)) == Total(a);
  }

  /** ... and keeps one positive line per commodity. */
  lemma SellKeepsWellFormed(cargo: seq<CargoLine>, commodityId: string, quantity: int)
    requires UniqueIds(cargo)
    ensures WellFormedCargo(KeepPositive(Adjust(cargo, commodityId, -quantity)))
  {
    AdjustKeepsUnique(cargo, commodityId, -quantity);
    KeepPositiveWellFormed(Adjust(cargo, commodityId, -quantity));
  }

  /** Lowering the line at `i` by at most its quantity and pruning leaves
      that commodity's line lower by exactly the quantity. */
  lemma SellFromLineQuantity(cargo: seq<CargoLine>, commodityId: string, quantity: int, i: int)
    requires WellFormedCargo(cargo)
    requires 0 <= i < |cargo| && cargo[i].commodityId == commodityId && cargo[i].quantity >= quantity
    ensures LineQuantity(KeepPositive(Adjust(cargo, commodityId, -quantity)), commodityId) == cargo[i].quantity - quantity
  {
    var a := Adjust(cargo, commodityId, -quantity);
    var after := KeepPositive(a);
    if a[i].quantity > 0 {
      SellKeepsWellFormed(cargo, commodityId, quantity);
      KeepPositiveComplete(a, a[i]);
      var k :| 0 <= k < |after| && after[k] == a[i];
      LineQuantityAt(after, k);
    } else {
      forall j | 0 <= j < |a| && a[j].commodityId == commodityId
        ensures a[j].quantity <= 0
      {
        assert j == i;
      }
      KeepPositiveDropsEmpty(a, commodityId);
    }
  }

  /** Pruning after lowering one commodity brings in no line of another. */
  lemma SellAddsNoLine(cargo: seq<CargoLine>, commodityId: string, quantity: int, x: CargoLine)
    requires x in KeepPositive(Adjust(cargo, commodityId, -quantity)) && x.commodityId != commodityId
    ensures x in cargo
  {
    var a := Adjust(cargo, commodityId, -quantity);
    KeepPositiveSound(a, x);
    var k :| 0 <= k < |a| && a[k] == x;
    assert cargo[k] == x;
  }

  /** A sell the check allowed removes exactly `quantity` from the commodity
      and from the total, keeps the cargo invariant, and brings in no line of
      another commodity. */
  lemma SellRemovesQuantity(ship: Ship, planetId: string, commodityId: string, quantity: int)
    requires WellFormedCargo(ship.currentCargo)
    requires CanSellCommodity(ship, planetId, commodityId, quantity)
    ensures WellFormedCargo(UpdateCargoOnSell(ship, commodityId, quantity).currentCargo)
    ensures Total(UpdateCargoOnSell(ship, commodityId, quantity).currentCargo) == Total(ship.currentCargo) - quantity
    ensures LineQuantity(UpdateCargoOnSell(ship, commodityId, quantity).currentCargo, commodityId)
            == LineQuantity(ship.currentCargo, commodityId) - quantity
    ensures forall x :: x in UpdateCargoOnSell(ship, commodityId, quantity).currentCargo ==>
              x.commodityId == commodityId || x in ship.currentCargo
  {
    var c := ship.currentCargo;
    var after := KeepPositive(Adjust(c, commodityId, -quantity));
    var i :| 0 <= i < |c| && c[i].commodityId == commodityId;
    LineQuantityAt(c, i);
    SellFromLineTotal(c, commodityId, quantity, i);
    SellKeepsWellFormed(c, commodityId, quantity);
    SellFromLineQuantity(c, commodityId, quantity, i);
    assert UpdateCargoOnSell(ship, commodityId, quantity).currentCargo == after;
    forall x | x in after && x.commodityId != commodityId
      ensures x in c
    {
      SellAddsNoLine(c, commodityId, quantity, x);
    }
  }

  /** Lowering a commodity's only line by its whole quantity empties it. */
  lemma AdjustEmptiesLine(cargo: seq<CargoLine>, commodityId: string, i: int)
    requires UniqueIds(cargo)
    requires 0 <= i < |cargo| && cargo[i].commodityId == commodityId
    ensures var a := Adjust(cargo, commodityId, -cargo[i].quantity);
      forall j :: 0 <= j < |a| && a[j].commodityId == commodityId ==> a[j].quantity == 0
  {
  }

  /** Pruning drops every line of a commodity that has none left. */
  lemma {:induction false} KeepPositiveDropsEmpty(cargo: seq<CargoLine>, commodityId: string)
    requires forall j :: 0 <= j < |cargo| && cargo[j].commodityId == commodityId ==> cargo[j].quantity <= 0
    ensures !HasLine(KeepPositive(cargo), commodityId)
    decreases |cargo|
  {
    if |cargo| > 0 {
      var tail := cargo[1..];
      KeepPositiveDropsEmpty(tail, commodityId);
      var head := if cargo[0].quantity > 0 then [cargo[0]] else [];
      var r := KeepPositive(cargo);
      assert r == head + KeepPositive(tail);
      forall k | 0 <= k < |r| ensures r[k].commodityId != commodityId {
        if k >= |head| {
          assert r[k] == KeepPositive(tail)[k - |head|];
        }
      }
    }
  }

  /** Selling a line's whole quantity removes the line. */
  lemma SellAllDropsLine(ship: Ship, planetId: string, commodityId: string, quantity: int)
    requires UniqueIds(ship.currentCargo)
    requires HasLine(ship.currentCargo, commodityId) && LineQuantity(ship.currentCargo, commodityId) == quantity
    ensures !HasLine(UpdateCargoOnSell(ship, commodityId, quantity).currentCargo, commodityId)
  {
    var i := LineIndex(ship.currentCargo, commodityId);
    SellWholeLine(ship, i, commodityId, quantity);
  }

  lemma SellWholeLine(ship: Ship, i: nat, commodityId: string, quantity: int)
    requires UniqueIds(ship.currentCargo) && i < |ship.currentCargo|
    requires ship.currentCargo[i].commodityId == commodityId && ship.currentCargo[i].quantity == quantity
    ensures !HasLine(UpdateCargoOnSell(ship, commodityId, quantity).currentCargo, commodityId)
  {
    EmptiedLineIsDropped(ship.currentCargo, i, commodityId, quantity);
    SellPrunesAdjusted(ship, commodityId, quantity);
  }

  lemma SellPrunesAdjusted(ship: Ship, commodityId: string, quantity: int)
    ensures UpdateCargoOnSell(ship, commodityId, quantity).currentCargo
         == KeepPositive(Adjust(ship.currentCargo, commodityId, -quantity))
  {
  }

  /** With one line per commodity, the line a commodity is read from. */
  lemma LineIndex(c: seq<CargoLine>, commodityId: string) returns (i: nat)
    requires UniqueIds(c) && HasLine(c, commodityId)
    ensures i < |c| && c[i].commodityId == commodityId && c[i].quantity == LineQuantity(c, commodityId)
  {
    i :| 0 <= i < |c| && c[i].commodityId == commodityId;
    LineQuantityAt(c, i);
  }

  lemma EmptiedLineIsDropped(c: seq<CargoLine>, i: nat, commodityId: string, quantity: int)
    ensures UniqueIds(c) && i < |c| && c[i].commodityId == commodityId && c[i].quantity == quantity ==>
      !HasLine(KeepPositive(Adjust(c, commodityId, -quantity)), commodityId)
  {
    if UniqueIds(c) && i < |c| && c[i].commodityId == commodityId && c[i].quantity == quantity {
      AdjustEmptiesLine(c, commodityId, i);
      KeepPositiveDropsEmpty(Adjust(c, commodityId, -quantity), commodityId);
    }
  }

  /** Selling a non-negative quantity never pushes the hold over capacity. */
  lemma SellKeepsCapacity(ship: Ship, planetId: string, commodityId: string, quantity: int)
    requires WellFormedCargo(ship.currentCargo) && WithinCapacity(ship)
    requires quantity >= 0
    requires CanSellCommodity(ship, planetId, commodityId, quantity)
    ensures WithinCapacity(UpdateCargoOnSell(ship, commodityId, quantity))
  {
    SellRemovesQuantity(ship, planetId, commodityId, quantity);
  }

  /** `updateShipCoreStats`: the supplied stats overwrite the ship's, the rest
      of the ship is kept. */
  function UpdateShipCoreStats(ship: Ship, stats: ShipStats): (r: Ship)
    ensures r.name == ship.name && r.currentCargo == ship.currentCargo && r.fuel == ship.fuel
    ensures r.cargoCapacity == (if stats.cargoCapacity.Some? then stats.cargoCapacity.value else ship.cargoCapacity)
    ensures r.maxFuel == (if stats.maxFuel.Some? then stats.maxFuel.value else ship.maxFuel)
  {
    ship.(cargoCapacity := stats.cargoCapacity.GetOr(ship.cargoCapacity),
          maxFuel := stats.maxFuel.GetOr(ship.maxFuel))
  }

  /** Merging the same stats twice is merging them once. */
  lemma UpdateShipCoreStatsIdempotent(ship: Ship, stats: ShipStats)
    ensures UpdateShipCoreStats(UpdateShipCoreStats(ship, stats), stats) == UpdateShipCoreStats(ship, stats)
    ensures UpdateShipCoreStats(ship, ShipStats(None, None)) == ship
  {
  }

  // ---------------------------------------------------------------------------
  // Prices

  /** A draw of `Math.floor(Math.random() * 5) - 2`. */
  type Fluctuation = f: int | -2 <= f <= 2

  /** A draw of `Math.floor(Math.random() * 2) + 1`. */
  type Bump = b: int | 1 <= b <= 2 witness 1

  /** The random draws of one price update: whether planet `i` is picked by the
      30% chance, and the fluctuation and bump for listing `j` of planet `i`. */
  datatype PriceRolls = PriceRolls(
    chance: nat -> bool,
    fluctuation: (nat, nat) -> Fluctuation,
    bump: (nat, nat) -> Bump)

  /** The rules one listing's update obeys: unset prices stay as they were,
      set prices stay at least 1 and move by at most 2 (clamped at 1), except
      that a buy price raised to stay above the sell price ends 1 or 2 above it. */
  predicate ListingUpdateOk(before: Listing, after: Listing) {
    && after.commodityId == before.commodityId
    && after.stock == before.stock
    && (!PriceSet(before.buyPrice) ==> after.buyPrice == before.buyPrice)
    && (!PriceSet(before.sellPrice) ==> after.sellPrice == before.sellPrice)
    && (PriceSet(before.sellPrice) ==>
          && PriceSet(after.sellPrice)
          && Max(1, before.sellPrice.value - 2) <= after.sellPrice.value <= Max(1, before.sellPrice.value + 2))
    && (PriceSet(before.buyPrice) ==>
          && PriceSet(after.buyPrice)
          && after.buyPrice.value >= 1
          && ((Max(1, before.buyPrice.value - 2) <= after.buyPrice.value <= Max(1, before.buyPrice.value + 2))
              || (PriceSet(before.sellPrice)
                  && after.sellPrice.value < after.buyPrice.value <= after.sellPrice.value + 2)))
    && (PriceSet(before.buyPrice) && PriceSet(before.sellPrice) ==>
          after.buyPrice.value > after.sellPrice.value)
  }

  function FluctuateListing(l: Listing, f: Fluctuation, b: Bump): (r: Listing)
    ensures ListingUpdateOk(l, r)
  {
    var buy := if PriceSet(l.buyPrice) then Some(Max(1, l.buyPrice.value + f)) else l.buyPrice;
    var sell := if PriceSet(l.sellPrice) then Some(Max(1, l.sellPrice.value + f)) else l.sellPrice;
    var buy' := if PriceSet(buy) && PriceSet(sell) && buy.value <= sell.value then Some(sell.value + b) else buy;
    l.(buyPrice := buy', sellPrice := sell)
  }

  /** Whether `fluctuatePrices` updates planet `i`: every planet when no planet
      is named, the named one, and any other one the 30% draw picks. */
  predicate Selected(planets: seq<Planet>, i: nat, target: Option<string>, rolls: PriceRolls)
    requires i < |planets|
  {
    target.None? || target.value == "" || planets[i].id == target.value || rolls.chance(i)
  }

  function FluctuateListings(listings: seq<Listing>, i: nat, rolls: PriceRolls): (r: seq<Listing>)
    ensures |r| == |listings|
    ensures forall j :: 0 <= j < |listings| ==> ListingUpdateOk(listings[j], r[j])
  {
    var r := seq(|listings|, j requires 0 <= j < |listings| =>
      FluctuateListing(listings[j], rolls.fluctuation(i, j), rolls.bump(i, j)));
    assert forall j :: 0 <= j < |listings| ==>
      r[j] == FluctuateListing(listings[j], rolls.fluctuation(i, j), rolls.bump(i, j));
    r
  }

  /** `fluctuatePrices`: perturbs the listings of the selected planets and
      leaves every other planet as it was; planets keep their count, order and
      everything but their listings. */
  function FluctuatePrices(planets: seq<Planet>, target: Option<string>, rolls: PriceRolls): (r: seq<Planet>)
    ensures |r| == |planets|
    ensures forall i :: 0 <= i < |planets| ==> r[i] == planets[i].(listings := r[i].listings)
    ensures forall i :: 0 <= i < |planets| && !Selected(planets, i, target, rolls) ==> r[i] == planets[i]
    ensures forall i :: 0 <= i < |planets| && target.Some? && planets[i].id == target.value ==>
      Selected(planets, i, target, rolls)
    ensures forall i :: 0 <= i < |planets| ==> |r[i].listings| == |planets[i].listings|
    ensures forall i, j :: 0 <= i < |planets| && Selected(planets, i, target, rolls) && 0 <= j < |planets[i].listings| ==>
      ListingUpdateOk(planets[i].listings[j], r[i].listings[j])
  {
    var r := seq(|planets|, i requires 0 <= i < |planets| =>
      if Selected(planets, i, target, rolls)
      then planets[i].(listings := FluctuateListings(planets[i].listings, i, rolls))
      else planets[i]);
    assert forall i :: 0 <= i < |planets| ==>
      r[i].listings == (if Selected(planets, i, target, rolls)
                        then FluctuateListings(planets[i].listings, i, rolls) else planets[i].listings);
    r
  }

  /** On every planet the update touches, a listing with both prices set ends
      with the planet selling above the price it buys at. */
  lemma FluctuateKeepsSpread(planets: seq<Planet>, target: Option<string>, rolls: PriceRolls, i: nat, j: nat)
    requires i < |planets| && j < |planets[i].listings|
    requires Selected(planets, i, target, rolls)
    requires PriceSet(planets[i].listings[j].buyPrice) && PriceSet(planets[i].listings[j].sellPrice)
    ensures var l := FluctuatePrices(planets, target, rolls)[i].listings[j];
      PriceSet(l.buyPrice) && PriceSet(l.sellPrice) && l.sellPrice.value < l.buyPrice.value
  {
  }

  // ---------------------------------------------------------------------------
  // Travel

  function PlanetById(planets: seq<Planet>, id: string): (r: Option<Planet>)
    ensures r.Some? ==> r.value in planets && r.value.id == id
    ensures r.None? <==> forall i :: 0 <= i < |planets| ==> planets[i].id != id
  {
    Find(planets, (p: Planet) => p.id == id)
  }

  /** Fuel for a trip from the current planet to `planetId`, or `None` when
      either planet is unknown. */
  function TravelCost(s: GameState, planetId: string): Option<nat> {
    var current := if s.currentPlanetId.Some? then PlanetById(s.planets, s.currentPlanetId.value) else None;
    var target := PlanetById(s.planets, planetId);
    if current.None? || target.None? then None
    else Some(FuelNeeded(current.value.coordinates, target.value.coordinates))
  }

  /** A trip accepted by `travelToPlanet`, carried until the arrival. */
  datatype TravelPlan = TravelPlan(target: string, fuelNeeded: nat)

  /** The synchronous half of `travelToPlanet`: checks both planets and the
      fuel, and raises the traveling flag. */
  function StartTravel(s: GameState, planetId: string): (r: (GameState, Option<TravelPlan>))
    ensures TravelCost(s, planetId).None? ==> r == (s, None)
    ensures TravelCost(s, planetId).Some? && s.ship.fuel < TravelCost(s, planetId).value ==> r == (s, None)
    ensures TravelCost(s, planetId).Some? && s.ship.fuel >= TravelCost(s, planetId).value ==>
      r == (s.(isTraveling := true), Some(TravelPlan(planetId, TravelCost(s, planetId).value)))
  {
    match TravelCost(s, planetId)
    case None => (s, None)
    case Some(need) =>
      if s.ship.fuel >= need then (s.(isTraveling := true), Some(TravelPlan(planetId, need)))
      else (s, None)
  }

  /** The delayed half: moves the ship, burns the fuel, clears the flag and
      perturbs the prices, naming the planet just reached. */
  function FinishTravel(s: GameState, plan: TravelPlan, rolls: PriceRolls): (r: GameState)
    ensures r.currentPlanetId == Some(plan.target)
    ensures r.ship == s.ship.(fuel := s.ship.fuel - plan.fuelNeeded)
    ensures !r.isTraveling && r.isTrading == s.isTrading && r.commodities == s.commodities
    ensures r.planets == FluctuatePrices(s.planets, Some(plan.target), rolls)
  {
    GameState(Some(plan.target), s.ship.(fuel := s.ship.fuel - plan.fuelNeeded),
              FluctuatePrices(s.planets, Some(plan.target), rolls),
              s.commodities, false, s.isTrading)
  }

  /** `travelToPlanet` with its delay elapsed and nothing in between. With an
      unknown planet or too little fuel nothing changes; otherwise the ship is
      at the target with exactly the trip's fuel burnt, never below zero. */
  function TravelToPlanet(s: GameState, planetId: string, rolls: PriceRolls): (r: GameState)
    ensures TravelCost(s, planetId).None? ==> r == s
    ensures TravelCost(s, planetId).Some? && s.ship.fuel < TravelCost(s, planetId).value ==> r == s
    ensures TravelCost(s, planetId).Some? && s.ship.fuel >= TravelCost(s, planetId).value ==>
      && r.currentPlanetId == Some(planetId)
      && r.ship == s.ship.(fuel := s.ship.fuel - TravelCost(s, planetId).value)
      && 0 <= r.ship.fuel <= s.ship.fuel
      && !r.isTraveling
      && |r.planets| == |s.planets|
      && (forall i :: 0 <= i < |s.planets| ==> r.planets[i].id == s.planets[i].id)
  {
    var (s1, plan) := StartTravel(s, planetId);
    if plan.None? then s1 else FinishTravel(s1, plan.value, rolls)
  }

  /** Terra Prime (100, 100) to Mars Colony (250, 150): distance about 158.11,
      so the trip costs 16 fuel and leaves the starting ship with 84. */
  lemma TerraToMarsCosts16(rolls: PriceRolls)
    ensures TravelCost(InitialState, "mars") == Some(16)
    ensures TravelToPlanet(InitialState, "mars", rolls).ship.fuel == 84
    ensures TravelToPlanet(InitialState, "mars", rolls).currentPlanetId == Some("mars")
  {
    assert PlanetsData[0].id == "terra";
    assert PlanetById(PlanetsData, "terra") == Some(PlanetsData[0]);
    assert PlanetsData[1].id == "mars";
    assert PlanetsData[0].id != "mars";
    assert PlanetById(PlanetsData, "mars") == Some(PlanetsData[1]);
    assert SquaredDistance(Point(100, 100), Point(250, 150)) == 25000;
    CeilTenthRootUnique(25000, 16);
  }
}
