# AstroTrader game rules in Dafny

AstroTrader is a space-trading game. A player flies a ship between planets, buys and sells commodities at each planet's market, refuels, and buys upgrade blueprints. Credits are tokens on the Solana chain, and blueprints are NFTs. This project models the game's rule layer as immutable datatypes and pure functions, and proves properties of them:

- the ship-and-cargo store: cargo capacity, buying, selling and pruning, stat merges, travel fuel, and price fluctuation;
- the star map's hyperlane construction, its click guard and its active-lane test;
- the market, refuel and blueprint-store handlers, each modelled as a function from (state, inputs, external outcomes) to (new state, effect);
- the credits-balance state machine;
- the blueprint-metadata trait scan;
- the server routes for player records, selling, minting and the starting-credits faucet, each over a key-to-record store;
- the catalog repositories.

Chain transfers, mints, balance reads, wallet sends and `Math.random` draws are never performed. Each one is an explicit parameter describing how it ended. So are the store's check results and the clock.

Modules, one per file: `Wrappers`, `Seqs`, `Models` (the records of `src/types/models.ts` and `src/types/blueprints.ts`), `Geometry`, `JsParse` (JavaScript's `parseInt`), `GameStore`, `Repositories`, `Starmap`, `MarketView`, `RefuelView`, `StoreModal`, `CreditsStore`, `MetaplexClient`, `Server` (sessions, the store, flags), `UserDataRoute`, `ExecuteSellRoute`, `MintRoute` and `ClaimRoute`.

Numbers are mathematical integers. JavaScript truthiness of a number is "non-zero". An optional price is an `Option<int>`, and it counts as set when it is present and non-zero. Credits carry 6 decimals, so one credit is 10^6 base units. The travel cost `Math.ceil(sqrt(dx²+dy²)/10)` is modelled exactly, as the least `n ≥ 0` with `100·n² ≥ dx²+dy²`. The star map compares squared integer distances, which order planets exactly as the square-root distances do.

In three places the code behaves differently from what its names and comments suggest; the model follows the code:

- `travelToPlanet` (`src/store/gameStore.ts:97-120`) does not itself refuse a trip while one is under way, nor a trip to the current planet. Only the star map's click guard (`src/components/game/StarmapView.tsx:199`) stops the first, and nothing stops the second: it costs no fuel but still re-rolls prices.
- `updateCargoOnSell` (`src/store/gameStore.ts:154`) drops every line whose quantity is ≤ 0, not only lines that reach exactly 0.
- The sell route pays the static prices of `src/store/gameStore.ts:59-75`. It ignores the prices the client has fluctuated.

## Model

| member | source | states |
|---|---|---|
| GameStore.CanBuyCommodity | src/store/gameStore.ts:122-127 | true exactly when the sum of cargo quantities plus the requested quantity fits the capacity; the planet and price play no part |
| GameStore.UpdateCargoOnBuy | src/store/gameStore.ts:129-142 | only the cargo changes; an existing line keeps the list's length, otherwise exactly one line is appended at the end; every line of another commodity is unchanged |
| GameStore.BuyAddsQuantity | src/store/gameStore.ts:129-142 | buying keeps commodity ids unique, raises the cargo total by exactly the quantity, and raises that commodity's line by the quantity |
| GameStore.BuyExistingLine | src/store/gameStore.ts:133-136 | incrementing a present line keeps ids unique and adds the quantity to both the total and that line |
| GameStore.BuyNewLine | src/store/gameStore.ts:137-139 | appending a new line keeps ids unique and adds the quantity to the total and to the (previously zero) line |
| GameStore.BuyKeepsCapacity | src/store/gameStore.ts:122-142 | if the capacity check passed, the cargo after buying is still within capacity |
| GameStore.CanSellCommodity | src/store/gameStore.ts:144-148 | true exactly when a line for the commodity exists and the first such line's quantity is at least the requested one |
| GameStore.CanSellIffEnough | src/store/gameStore.ts:144-148 | with unique ids, the sell check holds exactly when the commodity's line quantity covers the request |
| GameStore.UpdateCargoOnSell | src/store/gameStore.ts:150-157 | only the cargo changes, every remaining line has a positive quantity, and no line is added; what happens to the sold line is stated by SellRemovesQuantity |
| GameStore.SellKeepsOtherLines | src/store/gameStore.ts:152-154 | every positive line of another commodity survives a sale |
| GameStore.SellRemovesQuantity | src/store/gameStore.ts:144-157 | after a passing sell check, cargo stays well formed, the total and the sold commodity's line both fall by exactly the quantity, and every remaining line of another commodity was already in the hold |
| GameStore.SellFromLineQuantity | src/store/gameStore.ts:150-157 | lowering the one line of a commodity by at most its quantity and pruning leaves that commodity's quantity lower by exactly that amount, whether the line survives or is dropped |
| GameStore.SellAddsNoLine | src/store/gameStore.ts:150-157 | a line of another commodity after the sale was a line of the hold before it |
| GameStore.SellAllDropsLine | src/store/gameStore.ts:150-157 | selling a line's whole quantity removes that commodity's line from the cargo |
| GameStore.SellKeepsCapacity | src/store/gameStore.ts:144-157 | a passing sale of a non-negative quantity keeps the cargo within capacity |
| GameStore.KeepPositiveSound | src/store/gameStore.ts:154 | everything the filter keeps was in the cargo and has a positive quantity |
| GameStore.KeepPositiveComplete | src/store/gameStore.ts:154 | every cargo line with a positive quantity is kept |
| GameStore.KeepPositiveTotal | src/store/gameStore.ts:154 | dropping lines of quantity zero leaves the cargo total unchanged |
| GameStore.KeepPositiveUnique | src/store/gameStore.ts:154 | filtering keeps commodity ids unique |
| GameStore.KeepPositiveDropsEmpty | src/store/gameStore.ts:154 | when every line of a commodity is ≤ 0, no line of it survives the filter |
| GameStore.ReduceIsTotal | src/store/gameStore.ts:124 | the left-to-right reduce with a starting sum equals that sum plus the cargo total |
| GameStore.TotalAppend | src/store/gameStore.ts:124 | the cargo total is additive over concatenation |
| GameStore.AdjustTotal | src/store/gameStore.ts:134-136 | changing the one line of a commodity by delta changes the total by delta |
| GameStore.UpdateShipCoreStats | src/store/gameStore.ts:159-166 | capacity and maximum fuel are overwritten only when supplied; name, cargo and fuel are untouched |
| GameStore.UpdateShipCoreStatsIdempotent | src/store/gameStore.ts:159-166 | merging the same stats twice is merging once, and merging no stats changes nothing |
| GameStore.FluctuateListing | src/store/gameStore.ts:173-192 | absent or zero prices stay as they were; set prices stay ≥ 1 and move by at most 2, except a buy price lifted to end 1 or 2 above the sell price; when both are set, buy ends above sell |
| GameStore.FluctuatePrices | src/store/gameStore.ts:168-200 | planet count, order and every field but the listings are kept; unselected planets are unchanged; the target planet is always re-priced; each listing of a selected planet obeys the listing rule |
| GameStore.FluctuateKeepsSpread | src/store/gameStore.ts:185-188 | on a selected planet, a listing with both prices set ends with buy > sell ≥ 1 |
| GameStore.PlanetById | src/store/gameStore.ts:98-100 | finds a planet with that id, and finds none exactly when no planet has it |
| GameStore.StartTravel | src/store/gameStore.ts:97-106 | an unknown planet or too little fuel changes nothing; otherwise the ship is marked travelling and a trip costing exactly the rounded-up tenth of the distance is planned |
| GameStore.FinishTravel | src/store/gameStore.ts:107-115 | the player is at the target, fuel drops by exactly the trip's cost, travel ends, and prices are fluctuated with the target selected |
| GameStore.TravelToPlanet | src/store/gameStore.ts:97-120 | no change without both planets or enough fuel; otherwise the player arrives with fuel reduced by the cost and never below zero |
| GameStore.TerraToMarsCosts16 | src/store/gameStore.ts:60-65 | the trip from terra (100,100) to mars (250,150) costs 16 fuel, leaving 84 |
| Geometry.SquaredDistanceIsAMetricBase | src/components/game/StarmapView.tsx:6-8 | the distance is symmetric, zero from a point to itself, and zero only between equal points |
| Geometry.CeilTenthRoot | src/store/gameStore.ts:102-103 | the result n satisfies 100·n² ≥ d² while n−1 does not |
| Geometry.CeilTenthRootIsLeast | src/store/gameStore.ts:103 | no smaller n satisfies 100·n² ≥ d² |
| Geometry.CeilTenthRootUnique | src/store/gameStore.ts:103 | the rounded-up tenth of the distance is the only n with that property |
| Starmap.Candidates | src/components/game/StarmapView.tsx:25-33 | every other planet appears exactly once, with its squared distance, and the planet itself never does |
| Starmap.SortByDistance | src/components/game/StarmapView.tsx:34 | sorting is a permutation of the candidates |
| Starmap.SortIsSorted | src/components/game/StarmapView.tsx:34 | candidates end ordered by distance, ties kept in index order |
| Starmap.Nearest | src/components/game/StarmapView.tsx:37 | each planet keeps min(3, n−1) neighbours |
| Starmap.NearestAreCandidates | src/components/game/StarmapView.tsx:25-38 | every kept neighbour is another valid planet at its true squared distance |
| Starmap.NearestAreNearest | src/components/game/StarmapView.tsx:34-38 | a kept neighbour is no farther than any planet left out |
| Starmap.NearestDistinct | src/components/game/StarmapView.tsx:25-38 | the kept neighbours are distinct planets |
| Starmap.LanesFrom | src/components/game/StarmapView.tsx:38-47 | the lanes of one planet start there and only go to higher indices |
| Starmap.LanesFromSound | src/components/game/StarmapView.tsx:40-45 | each such lane goes to a kept neighbour at its distance |
| Starmap.LanesFromComplete | src/components/game/StarmapView.tsx:40-45 | each kept neighbour with a higher index gets a lane |
| Starmap.NearestSorted | src/components/game/StarmapView.tsx:34-37 | the kept neighbours come in ascending distance, ties in index order as the stable sort leaves them |
| Starmap.LanesFromOrdered | src/components/game/StarmapView.tsx:38-45 | filtering the neighbours into lanes keeps their distance order |
| Starmap.LanesInDistanceOrder | src/components/game/StarmapView.tsx:34-45 | the lanes one planet pushes go out in ascending distance, ties by target index |
| Starmap.Hyperlanes | src/components/game/StarmapView.tsx:20-51 | every lane has valid endpoints with from < to, so no planet links to itself |
| Starmap.HyperlaneIsNear | src/components/game/StarmapView.tsx:20-51 | every lane joins a planet to one of its kept neighbours, at their squared distance |
| Starmap.NearestGetLanes | src/components/game/StarmapView.tsx:20-51 | every kept neighbour with a higher index appears as a lane |
| Starmap.HyperlanesAreDistinct | src/components/game/StarmapView.tsx:20-51 | no pair of planets is joined twice |
| Starmap.SmallMapIsComplete | src/components/game/StarmapView.tsx:37-47 | with at most four planets every pair is joined |
| Starmap.ActiveLanesTouchCurrent | src/components/game/StarmapView.tsx:140 | with distinct planet ids, a lane is highlighted exactly when one of its ends is the current planet |
| Starmap.OnPlanetClick | src/components/game/StarmapView.tsx:199 | a click while travelling does nothing; a click while idle starts a trip exactly when the planet is known and the fuel covers the rounded-up tenth of the distance, marking travel; any click that starts no trip leaves the state alone |
| Starmap.NoSecondTripUnderWay | src/components/game/StarmapView.tsx:199 | once a click has started a trip, a second click starts none |
| JsParse.ParseIntReadsNumeral | src/components/game/MarketView.tsx:62 | the decimal text of an integer followed by a non-digit parses back to that integer |
| JsParse.ParseIntSkipsSpace | src/components/game/RefuelView.tsx:106 | leading white space does not change the parse |
| JsParse.ParseIntRejectsNonNumeral | src/components/game/RefuelView.tsx:106-107 | text starting with anything but white space, a sign or a decimal digit gives NaN, with or without hexadecimal detection |
| JsParse.ParseIntHex | src/components/game/RefuelView.tsx:106 | without a radix "0x1A" reads as hexadecimal, with radix 10 it reads 0 |
| MarketView.CurrentPlanet | src/components/game/MarketView.tsx:56-59 | a planet is found only for a non-empty id and one that is listed, and one is always found in that case |
| MarketView.HandleQuantityChange | src/components/game/MarketView.tsx:61-64 | the entry becomes the parsed number, or 0 for NaN or a negative; other entries, the busy flags and the ship are untouched |
| MarketView.TypedCountIsStored | src/components/game/MarketView.tsx:61-64 | typing a count stores exactly that count, and a trade then uses it |
| MarketView.TradeQuantity | src/components/game/MarketView.tsx:83 | a commodity with no input trades 0, and while every input is a count the traded quantity is never negative |
| MarketView.TypingKeepsCounts | src/components/game/MarketView.tsx:61-64 | typing into an input keeps every input a non-negative count |
| MarketView.HandleTrade | src/components/game/MarketView.tsx:66-178 | a non-positive quantity stops before any check or payment; the busy flags are cleared on every exit; cargo is bought only after the check passes and the payment is built and sent, and sold only after the sell check passes and the server says ok; the payment is quantity × price × 10^6 |
| MarketView.SellButtonAgreesWithStore | src/components/game/MarketView.tsx:242-245 | the displayed cargo count is the line's quantity, and an enabled sell button with a covered quantity passes the store's sell check |
| MarketView.CargoQty | src/components/game/MarketView.tsx:243-244 | the displayed count is 0 without a line and the store's line quantity with one; with well-formed cargo it is positive exactly when the hold carries the commodity |
| MarketView.TradabilitySurvivesFluctuation | src/components/game/MarketView.tsx:245 | the row's tradability, and whether each of its buy and sell prices is set, is unchanged by a price fluctuation |
| MarketView.SellDisabled | src/components/game/MarketView.tsx:325 | an enabled sell button means no trade is in progress and the hold has at least one unit; with well-formed cargo it is disabled exactly while trading or when the hold has no line |
| MarketView.PostedSellIsWellFormed | src/components/game/MarketView.tsx:143-151 | a sell request sent to the server always passes the route's parameter validation |
| MarketView.SoldCargoDrops | src/components/game/MarketView.tsx:161 | a completed sale lowers the cargo total by the sold quantity |
| MarketView.BoughtCargoGrows | src/components/game/MarketView.tsx:127 | a completed purchase raises both the commodity's line and the cargo total by the bought quantity |
| RefuelView.FloorDiv | src/components/game/RefuelView.tsx:48 | the quotient is rounded towards minus infinity, as `Math.floor` of the exact quotient |
| RefuelView.QuoteFor | src/components/game/RefuelView.tsx:38-48 | price defaults to 5 and maximum fuel to 100 when unset or zero; fuel needed is maximum minus current; the affordable amount is the floor of credits over price |
| RefuelView.DefaultAmount | src/components/game/RefuelView.tsx:44-46 | the amount becomes min(10, fuel needed) |
| RefuelView.HandleFuelInputChange | src/components/game/RefuelView.tsx:105-110 | NaN input changes nothing; otherwise the amount is the smallest of the value, the fuel needed and the affordable amount |
| RefuelView.HandleMaxFuel | src/components/game/RefuelView.tsx:112-114 | the amount becomes the smaller of the fuel needed and the affordable amount |
| RefuelView.HandleFuelPurchase | src/components/game/RefuelView.tsx:50-103 | payment happens exactly when the amount is positive, fits the tank, is affordable and the transfer is built and sent; the payment is amount × price × 10^6; after a refuel the amount resets to min(10, maximum − new fuel) |
| RefuelView.EnabledButtonPassesChecks | src/components/game/RefuelView.tsx:198 | an enabled button with an amount that fits the tank reaches payment once the transfer is sent |
| RefuelView.MaxFuelIsAffordable | src/components/game/RefuelView.tsx:112-114 | the MAX amount fits the tank and costs no more than the balance |
| RefuelView.TypedAmountIsAffordable | src/components/game/RefuelView.tsx:105-110 | a typed amount fits the tank and costs no more than the balance |
| RefuelView.ChargedEvenWhenStoreRefuses | src/components/game/RefuelView.tsx:85-96 | the player pays even when the store then refuses the refuel |
| StoreModal.IsOwnedBlueprint | src/components/ui/StoreModal.tsx:45-48 | true exactly when some owned blueprint carries that id, so false for a missing or empty list |
| StoreModal.HandleBlueprintPurchase | src/components/ui/StoreModal.tsx:50-123 | an owned blueprint or a balance under 2500 stops before payment; payment of 2500 × 10^6 happens exactly when the wallet is connected and a transaction is built and signed; the mint request carries the blueprint id and signature; the owned list is reloaded exactly on an ok mint reply |
| StoreModal.NoPaymentForOwned | src/components/ui/StoreModal.tsx:51-54 | an owned blueprint is never paid for |
| StoreModal.EnabledButtonReachesWallet | src/components/ui/StoreModal.tsx:267-269 | an enabled purchase button passes both pre-payment checks |
| StoreModal.PostedMintRequestIsComplete | src/components/ui/StoreModal.tsx:94-103 | every mint request sent to the server carries a blueprint id and a signature, so it passes the route's first checks |
| StoreModal.ChargedEvenWhenMintFails | src/components/ui/StoreModal.tsx:83-116 | the player pays even when the mint then fails |
| CreditsStore.RefreshStart | src/store/creditsStore.ts:22-33 | a refresh in flight is a no-op; without a wallet the balance is zeroed, the error cleared and the store initialised without fetching; otherwise the store is marked loading and the error cleared |
| CreditsStore.RefreshFinish | src/store/creditsStore.ts:35-46 | loading ends and the store is initialised; a read sets the balance, a failure zeroes it and records its message or "Failed to fetch balance" |
| CreditsStore.SetBalance | src/store/creditsStore.ts:49-51 | only the balance changes |
| CreditsStore.RefreshFromIdleSettles | src/store/creditsStore.ts:22-47 | a refresh from idle ends idle and initialised, holding the read balance or zero, with an error exactly when a wallet's read failed |
| CreditsStore.RefreshDeduplicates | src/store/creditsStore.ts:26 | a second refresh while loading neither fetches nor changes the store |
| CreditsStore.StartedRefreshBlocksAnother | src/store/creditsStore.ts:26-33 | a started refresh blocks a second fetch until it finishes |
| CreditsStore.SetBalanceThenRefresh | src/store/creditsStore.ts:37-51 | a refresh's resulting balance does not depend on a balance set before it |
| MetaplexClient.JsString | src/lib/metaplex-client.ts:56 | text is kept, null becomes "null", a missing value becomes "undefined", and a number's text parses back to that number |
| MetaplexClient.JsToNumber | src/lib/metaplex-client.ts:58-59 | numbers are kept, null is 0, booleans are 0 or 1, and a missing value is NaN |
| MetaplexClient.LastIndex | src/lib/metaplex-client.ts:55-61 | finds the last attribute with the name, or none exactly when no attribute has it |
| MetaplexClient.ScanTraitsTakesLast | src/lib/metaplex-client.ts:53-61 | each of the five traits takes the converted value of the last attribute with its name, and is unset when none has it |
| MetaplexClient.ProcessAsset | src/lib/metaplex-client.ts:52-82 | an asset yields a blueprint exactly when it has attributes and the id, effect type, numeric value and tier, and description pass; the name and description fall back to "Unknown Blueprint" and "No description." |
| MetaplexClient.ProcessAll | src/lib/metaplex-client.ts:28-83 | every output comes from an accepted asset and every accepted asset's blueprint is output |
| MetaplexClient.ProcessAllAppend | src/lib/metaplex-client.ts:28-83 | processing a concatenation is processing each part in turn, so outputs follow the input order |
| MetaplexClient.ProcessAllSingle | src/lib/metaplex-client.ts:52-79 | a single asset yields its blueprint when accepted and nothing otherwise |
| MetaplexClient.ProcessAllCountsAccepted | src/lib/metaplex-client.ts:28-83 | exactly one blueprint is output per accepted asset |
| MetaplexClient.FetchOwnedBlueprints | src/lib/metaplex-client.ts:19-92 | a failed listing yields the empty list; otherwise the processed assets |
| MetaplexClient.ProcessedAreWellFormed | src/lib/metaplex-client.ts:63-76 | every returned blueprint has a non-empty id, description, name and NFT description |
| MetaplexClient.MissingTraitSkips | src/lib/metaplex-client.ts:63-79 | an asset missing any required trait is skipped |
| Server.WalletAddress | src/app/api/trade/execute-sell/route.ts:23-31 | a wallet address is accepted exactly when present, non-empty and a valid key; an empty one is a 400 and a missing or invalid one a 500 |
| Server.WrittenFlagReadsBack | src/app/api/blueprints/mint/route.ts:44-68 | a flag written with a lifetime reads back its value until the lifetime ends and is gone afterwards; other keys read as before |
| Server.ToBaseUnits | src/app/api/faucet/claim-initial-credits/route.ts:10 | credits convert to a whole number of base units that divides back to the credits |
| UserDataRoute.DefaultUserData | src/app/api/game/user-data/route.ts:10-30 | a new record has the session's ids, the first catalog planet or "terra-prime", empty cargo, a full tank at the base maximum, the base capacity and an unclaimed faucet |
| UserDataRoute.Load | src/app/api/game/user-data/route.ts:33-65 | 401 without a session and 400 without a wallet, both storing nothing; a stored record is returned as found; otherwise a default record is stored and returned as not found |
| UserDataRoute.LoadTwiceFindsTheFirst | src/app/api/game/user-data/route.ts:50-60 | a second load finds the record the first one created |
| UserDataRoute.MergeShip | src/app/api/game/user-data/route.ts:110 | each ship field comes from the body when given and from the stored ship otherwise |
| UserDataRoute.MergeShipLaws | src/app/api/game/user-data/route.ts:110 | an empty patch changes nothing, and applying a patch twice equals applying it once |
| UserDataRoute.Save | src/app/api/game/user-data/route.ts:68-125 | 401, 400 for no wallet and 400 for a missing planet id or ship, none writing; a save succeeds exactly when signed in with a wallet and both are given; it stores the merge over the stored or default record, with the claim flag from the body when present |
| UserDataRoute.SaveThenLoad | src/app/api/game/user-data/route.ts:105-119 | a load after a successful save returns the saved record |
| UserDataRoute.SaveIsolatesUsers | src/app/api/game/user-data/route.ts:90-115 | a save touches no other user's record |
| UserDataRoute.SaveIdempotent | src/app/api/game/user-data/route.ts:105-115 | saving the same body twice stores the same record as saving it once |
| ExecuteSellRoute.QuoteIn | src/app/api/trade/execute-sell/route.ts:36-56 | a quote exists only for a positive quantity, a known planet, a listing there with a set sell price and a known commodity, and it is that listing's price; every failure is a 400; bad parameters are rejected exactly when present; then an unknown planet exactly gives "invalid planet", a first matching planet with no listing gives "not bought here", and "invalid commodity" only comes after a priced listing was found |
| ExecuteSellRoute.QuoteFromTables | src/app/api/trade/execute-sell/route.ts:41-56 | for the first matching planet and listing, the quote is the listing's set price, or "not bought here" when the price is unset, or "invalid commodity" when no commodity has the id |
| ExecuteSellRoute.ExecuteSell | src/app/api/trade/execute-sell/route.ts:16-88 | 401 without a session; a failed wallet check or quote returns that failure and requests nothing; a payout to the session's wallet of quantity × price × 10^6 is requested exactly when the wallet and the quote are valid; the reply is ok exactly when it was sent, with credits awarded equal to the payout over 10^6; a failed transfer is a 500 |
| ExecuteSellRoute.PayoutPositive | src/app/api/trade/execute-sell/route.ts:47-57 | every requested payout is at least one credit |
| ExecuteSellRoute.StaticSellPricesPositive | src/store/gameStore.ts:59-75 | every sell price in the static table is positive |
| ExecuteSellRoute.SellOreAtTerra | src/app/api/trade/execute-sell/route.ts:41-57 | selling 3 ore at terra requests a payout of 150 credits |
| ExecuteSellRoute.MarsDoesNotBuyOre | src/app/api/trade/execute-sell/route.ts:46-49 | selling ore at mars requests no payout |
| MintRoute.Mint | src/app/api/blueprints/mint/route.ts:11-86 | a missing id is a 400 before authentication, then 401; a failed wallet check returns its failure; a missing signature is a 400, an unknown blueprint a 404, and a throwing mint a 500, all with the store unchanged; an NFT is minted exactly when all checks pass, no live "true" flag exists and the mint succeeds, and only then is the two-year flag written; "already minted" is answered exactly when a live flag is found |
| MintRoute.BlockedReplayMintsNothing | src/app/api/blueprints/mint/route.ts:45-54 | while a flag is live, no sequence of calls mints that blueprint |
| MintRoute.AtMostOneMintPerWindow | src/app/api/blueprints/mint/route.ts:44-68 | calls in time order within two years of the first mint a blueprint at most once |
| MintRoute.MintAgainAfterExpiry | src/app/api/blueprints/mint/route.ts:9-68 | after the flag expires the same blueprint can be minted again |
| ClaimRoute.Claim | src/app/api/faucet/claim-initial-credits/route.ts:13-90 | 401 without a session and the wallet check's failure without a valid wallet; no record is a 400; a claimed record is answered "already claimed" with the balance that was read (the read answers 0 rather than fail), sending nothing; 1000 × 10^6 credits are sent exactly when signed in with a valid wallet, a stored and unclaimed record and a successful transfer; only then is the record's flag and save time updated; a failed credit or SOL transfer is a 500; SOL is sent only after the credits; success is reported exactly when both transfers succeed, carrying the credit transfer's signature and 1000 credits |
| ClaimRoute.ClaimedRecordSendsNothing | src/app/api/faucet/claim-initial-credits/route.ts:40-48 | once a record is claimed, no sequence of calls sends credits |
| ClaimRoute.ClaimPaysAtMostOnce | src/app/api/faucet/claim-initial-credits/route.ts:40-63 | any sequence of claim calls sends the starting credits at most once |
| ClaimRoute.SaveReopensClaim | src/app/api/game/user-data/route.ts:111 | a player-record save with the claim flag false lets the next claim pay again |
| Repositories.GetAllPlanets | src/repositories/planet-repository.ts:8-10 | returns the whole dataset unchanged |
| Repositories.GetPlanetById | src/repositories/planet-repository.ts:12-14 | returns the first planet with that id, and none exactly when no planet has it |
| Repositories.GetMarketListings | src/repositories/planet-repository.ts:16-19 | the listings of the first planet with that id, or none for an unknown planet |
| Repositories.PlanetLookupAgreesWithGetAll | src/repositories/planet-repository.ts:8-19 | with distinct ids, looking up a listed planet's id returns that very entry of the full list, and its listings |
| Repositories.GetAllBlueprints | src/repositories/blueprint-definition-repository.ts:8-10 | returns the whole dataset unchanged |
| Repositories.GetBlueprintById | src/repositories/blueprint-definition-repository.ts:12-14 | returns the first definition with that id, and none exactly when none has it |
| Repositories.BlueprintLookupAgreesWithGetAll | src/repositories/blueprint-definition-repository.ts:8-14 | with distinct ids, looking up a listed definition's id returns that entry of the full list |
| Repositories.GetAllCommodities | src/repositories/commodity-repository.ts:9-11 | returns the whole dataset unchanged |
| Repositories.GetCommodityById | src/repositories/commodity-repository.ts:13-15 | returns the first commodity with that id, and none exactly when none has it |
| Repositories.CommodityLookupAgreesWithGetAll | src/repositories/commodity-repository.ts:9-15 | with distinct ids, looking up a listed commodity's id returns that entry of the full list |
| Seqs.Find | src/repositories/planet-repository.ts:13 | finds the first element satisfying the test, and nothing exactly when none does |

## Left out

- I/O is not modelled: Redis reads and writes, chain transfers, mints and balance reads, wallet sends, HTTP requests, toasts and console logging. Each outcome is a parameter.
- Redis failures and JSON parse errors inside the routes are not modelled: every store read and write succeeds. A failing read would be a 500 before anything happens. A failing write in the mint route (`src/app/api/blueprints/mint/route.ts:68`) or the faucet (`src/app/api/faucet/claim-initial-credits/route.ts:63`) comes after the NFT or the credits were sent, so a retry would pay again. MintRoute.AtMostOneMintPerWindow and ClaimRoute.ClaimPaysAtMostOnce hold only when the store's writes succeed.
- Redis keys are modelled as pairs, so two different ids can never collide in a key string.
- Concurrency is not modelled. Routes and handlers run one call at a time, so races between overlapping requests are outside the model.
- Floating point is not modelled. Prices, quantities, coordinates and balances are integers, and `Math.round` on integer products is the identity.
- Square roots are not computed: the star map compares squared distances, which order planets exactly as their square roots do.
- Whether a wallet string is a valid public key is the `isValidKey` parameter. Key construction and base-58 encoding are not modelled.
- Which Solana wallet belongs to a session in the player-record route is the `walletLookup` parameter, because its helper is not part of this model.
- The mint route's 400 for a missing wallet has slightly different wording from the other routes'. The model uses the shared failure, with the same status.
- `initializeGameState` (`src/store/gameStore.ts:91-93`) only logs, so it is not modelled.
- `setIsTrading` (`src/store/gameStore.ts:95`) is a plain field setter, so it is not modelled on its own. The market handler models its effect as the `storeIsTrading` flag.
- GameStore.TravelToPlanet: the one-second delay is not modelled. The model applies the arrival at once, and `StartTravel` / `FinishTravel` model the two halves separately.
- GameStore.FluctuatePrices: `Math.random` draws are the `PriceRolls` parameter, restricted to the ranges the code can produce.
- Starmap.OnPlanetClick: the view calls the `travelToPlanet` of the newer store interface (`src/components/game/StarmapView.tsx:11-16`), which is not part of this model. The click is modelled with the `travelToPlanet` of the store in `src/store/gameStore.ts` (lines 97-120) and its `currentPlanetId`, so the trip conditions the row states are that store's.
- MarketView.HandleTrade: it follows the newer store interface the component calls, whose buy check is not part of this model. The check's result is the parameter `check`. The sell check and the cargo updates reuse the logic of the store in `src/store/gameStore.ts`.
- RefuelView.HandleFuelPurchase: the store's `refuelShip` is not part of this model. Its answer is the parameter `store`.
- StoreModal.HandleBlueprintPurchase: reloading the owned blueprints is reported as a flag, because `loadOwnedBlueprints` is not part of this model.
- JsParse: `parseInt` skips the white space JavaScript defines (tab, vertical tab, form feed, the byte-order mark, line terminators and Unicode's space separators) and reads ASCII digits only. `-0` is represented as 0.
- MetaplexClient.JsToNumber: `Number()` is modelled only for decimal digit strings with surrounding white space. Other strings give NaN.
- MetaplexClient.JsString: object and array attribute values are not modelled; an attribute value is text, a number, a boolean, null or missing. A missing value is modelled as `undefined`, so a "Blueprint ID" attribute without a value yields the id "undefined" and can be accepted.
- CreditsStore.RefreshFinish: the failure cases model the store's own catch (`src/store/creditsStore.ts:38-46`) as written. The client balance helper in `src/lib/spl-client.ts` (lines 14-29) catches every error and answers 0, so with that helper the failure cases are unreachable: a failed chain read shows a balance of 0 and no error.
- The base capacity and maximum fuel used by the player-record route come from constants that are not part of this model. They are the `BaseStats` parameter.
- The award-placeholder and check-claim-status routes are not modelled. The first calls a function that is not part of this model, and the second reads a key that nothing here writes.
- The GET routes for planets, commodities and blueprint definitions only forward the repositories, so they are not modelled separately.
- The SOL amount of the faucet is a constant and plays no part in any decision.
