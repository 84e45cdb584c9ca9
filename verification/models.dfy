/** The records the game passes around: catalog entries (planets, market
    listings, commodities, blueprint definitions), the ship and its cargo, the
    persisted player record, and the blueprints parsed from owned NFTs.
    JavaScript numbers are modelled as integers; an optional number is an
    `Option<int>`, and JavaScript truthiness of a number is `n != 0`. */
module Models {
  import opened Wrappers

  /** One line of the cargo hold. */
  datatype CargoLine = CargoLine(commodityId: string, quantity: int)

  datatype Ship = Ship(
    name: string,
    cargoCapacity: int,
    currentCargo: seq<CargoLine>,
    fuel: int,
    maxFuel: int)

  /** What a planet pays and charges for one commodity. `buyPrice` is the price
      the planet sells to the player at, `sellPrice` the price it buys at. */
  datatype Listing = Listing(
    commodityId: string,
    buyPrice: Option<int>,
    sellPrice: Option<int>,
    stock: Option<int>)

  datatype Point = Point(x: int, y: int)

  /** A planet. The older store layout (`x`, `y`, `commodities`, no fuel price)
      and the catalog layout (`coordinates`, `marketListings`, `fuelPrice`)
      carry the same information, so one record serves both; `fuelPrice` is
      `None` for the store's static planets. */
  datatype Planet = Planet(
    id: string,
    name: string,
    description: string,
    coordinates: Point,
    listings: seq<Listing>,
    fuelPrice: Option<int>)

  datatype Commodity = Commodity(id: string, name: string, description: string, baseValue: Option<int>)

  datatype BlueprintEffectType = IncreaseCargoCapacity | IncreaseMaxFuel

  datatype BlueprintEffect = BlueprintEffect(effectType: BlueprintEffectType, value: int)

  datatype BlueprintDefinition = BlueprintDefinition(
    id: string,
    name: string,
    description: string,
    tier: int,
    imageUrl: string,
    metadataUri: string,
    effects: seq<BlueprintEffect>)

  /** A JSON value found in an NFT attribute; `Missing` is an attribute with
      no `value` field, which JavaScript reads as `undefined`. */
  datatype TraitValue = Text(text: string) | Num(n: int) | Flag(b: bool) | Null | Missing

  /** The result of JavaScript's `Number(...)`: a number, possibly NaN. Both
      are of type `number`. */
  datatype JsNumber = Finite(n: int) | NaN

  /** The game attributes read from an NFT. The effect type is kept as the raw
      attribute value: nothing checks it against the enumeration. */
  datatype ParsedAttributes = ParsedAttributes(
    blueprintId: string,
    effectType: TraitValue,
    effectValue: JsNumber,
    tier: JsNumber,
    description: string)

  datatype ProcessedBlueprint = ProcessedBlueprint(
    mintAddress: string,
    name: string,
    imageUrl: Option<string>,
    nftDescription: string,
    parsedAttributes: ParsedAttributes)

  /** The persisted player record. */
  datatype UserData = UserData(
    civicUserId: string,
    solWalletAddress: string,
    currentPlanetId: string,
    ship: Ship,
    hasClaimedInitialCredits: bool,
    lastSaved: int)

  /** A price is "set" when it is present and truthy (non-zero). */
  predicate PriceSet(p: Option<int>) {
    p.Some? && p.value != 0
  }

  /** Credit amounts leave the game as token base units: six decimals. */
  const BaseUnitsPerCredit: int := 1_000_000
}
