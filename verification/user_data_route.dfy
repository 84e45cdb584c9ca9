/** The player-record route: GET loads the signed-in user's record, creating
    and storing a default one on first use; POST merges a partial update into
    the stored (or default) record and stores the result. */
module UserDataRoute {
  import opened Wrappers
  import opened Models
  import opened Server

  /** The base stats a fresh ship starts with; their values live in a store
      module that is not part of this model. */
  datatype BaseStats = BaseStats(cargoCapacity: int, maxFuel: int)

  const DefaultShipName := "Stardust Hopper MkI"
  const FallbackPlanetId := "terra-prime"
  const IncompleteData := Failure(400, "Incomplete user data provided for saving")

  /** `getDefaultUserData`: a record at the first known planet (or the
      fallback id when there are none), with an empty hold, full tank and the
      claim not yet made. */
  function DefaultUserData(userId: string, wallet: string, planets: seq<Planet>, base: BaseStats, now: int): (r: UserData)
    ensures r.civicUserId == userId && r.solWalletAddress == wallet
    ensures |planets| > 0 ==> r.currentPlanetId == planets[0].id
    ensures |planets| == 0 ==> r.currentPlanetId == FallbackPlanetId
    ensures r.ship.currentCargo == [] && r.ship.fuel == r.ship.maxFuel == base.maxFuel
    ensures r.ship.cargoCapacity == base.cargoCapacity
    ensures !r.hasClaimedInitialCredits && r.lastSaved == now
  {
    var planetId := if |planets| > 0 then planets[0].id else FallbackPlanetId;
    UserData(userId, wallet, planetId,
             Ship(DefaultShipName, base.cargoCapacity, [], base.maxFuel, base.maxFuel),
             false, now)
  }

  datatype LoadReply = LoadReply(userData: UserData, found: bool)

  /** `GET`. `walletLookup` is what the session's wallet helper returned
      (empty when it found none). */
  function Load(st: Store, s: Session, walletLookup: string, planets: seq<Planet>, base: BaseStats, now: int)
    : (r: (Result<LoadReply>, Store))
    ensures !SignedIn(s) ==> r == (Err(Unauthorized), st)
    ensures SignedIn(s) && walletLookup == "" ==> r == (Err(NoWalletInSession), st)
    ensures SignedIn(s) && walletLookup != "" && s.id in st.users ==>
      r == (Ok(LoadReply(st.users[s.id], true)), st)
    ensures SignedIn(s) && walletLookup != "" && s.id !in st.users ==>
      && r.0.Ok? && !r.0.value.found
      && r.0.value.userData == DefaultUserData(s.id, walletLookup, planets, base, now)
      && r.1 == st.(users := st.users[s.id := r.0.value.userData])
  {
    if !SignedIn(s) then (Err(Unauthorized), st)
    else if walletLookup == "" then (Err(NoWalletInSession), st)
    else if s.id in st.users then (Ok(LoadReply(st.users[s.id], true)), st)
    else
      var d := DefaultUserData(s.id, walletLookup, planets, base, now);
      (Ok(LoadReply(d, false)), st.(users := st.users[s.id := d]))
  }

  /** The ship fields a save request may carry; `None` is a field left out. */
  datatype ShipPatch = ShipPatch(
    name: Option<string>,
    cargoCapacity: Option<int>,
    currentCargo: Option<seq<CargoLine>>,
    fuel: Option<int>,
    maxFuel: Option<int>)

  /** The body of a save request. */
  datatype SaveBody = SaveBody(
    currentPlanetId: Option<string>,
    ship: Option<ShipPatch>,
    hasClaimedInitialCredits: Option<bool>)

  /** `{ ...existing, ...patch }` on a ship: every field the patch carries
      wins, every other field is kept. */
  function MergeShip(existing: Ship, patch: ShipPatch): (r: Ship)
    ensures r.name == patch.name.GetOr(existing.name)
    ensures r.cargoCapacity == patch.cargoCapacity.GetOr(existing.cargoCapacity)
    ensures r.currentCargo == patch.currentCargo.GetOr(existing.currentCargo)
    ensures r.fuel == patch.fuel.GetOr(existing.fuel)
    ensures r.maxFuel == patch.maxFuel.GetOr(existing.maxFuel)
  {
    Ship(patch.name.GetOr(existing.name),
         patch.cargoCapacity.GetOr(existing.cargoCapacity),
         patch.currentCargo.GetOr(existing.currentCargo),
         patch.fuel.GetOr(existing.fuel),
         patch.maxFuel.GetOr(existing.maxFuel))
  }

  datatype SaveReply = SaveReply(savedAt: int, savedData: UserData)

  /** `POST`: the record stored for the user, or the default one, with the
      session's identity, the body's planet and ship fields, the claim flag
      when the body carries one, and the save time. */
  function Save(st: Store, s: Session, walletLookup: string, body: SaveBody,
                planets: seq<Planet>, base: BaseStats, now: int): (r: (Result<SaveReply>, Store))
    ensures r.0.Err? ==> r.1 == st
    ensures !SignedIn(s) ==> r.0 == Err(Unauthorized)
    ensures SignedIn(s) && walletLookup == "" ==> r.0 == Err(NoWalletInSession)
    ensures SignedIn(s) && walletLookup != "" && (body.currentPlanetId.None? || body.currentPlanetId.value == "" || body.ship.None?) ==>
      r.0 == Err(IncompleteData)
    ensures r.0.Ok? <==> SignedIn(s) && walletLookup != "" && body.currentPlanetId.Some?
                         && body.currentPlanetId.value != "" && body.ship.Some?
    ensures r.0.Ok? ==>
      var d := r.0.value.savedData;
      var existing := if s.id in st.users then st.users[s.id] else DefaultUserData(s.id, walletLookup, planets, base, now);
      && r.1 == st.(users := st.users[s.id := d])
      && r.0.value.savedAt == d.lastSaved == now
      && d.civicUserId == s.id && d.solWalletAddress == walletLookup
      && d.currentPlanetId == body.currentPlanetId.value
      && d.ship == MergeShip(existing.ship, body.ship.value)
      && d.hasClaimedInitialCredits == body.hasClaimedInitialCredits.GetOr(existing.hasClaimedInitialCredits)
  {
    if !SignedIn(s) then (Err(Unauthorized), st)
    else if walletLookup == "" then (Err(NoWalletInSession), st)
    else if body.currentPlanetId.None? || body.currentPlanetId.value == "" || body.ship.None? then
      (Err(IncompleteData), st)
    else
      var existing := if s.id in st.users then st.users[s.id] else DefaultUserData(s.id, walletLookup, planets, base, now);
      var d := UserData(s.id, walletLookup, body.currentPlanetId.value,
                        MergeShip(existing.ship, body.ship.value),
                        body.hasClaimedInitialCredits.GetOr(existing.hasClaimedInitialCredits), now);
      (Ok(SaveReply(now, d)), st.(users := st.users[s.id := d]))
  }

  /** A first load stores the default record, so a second load finds it and
      returns the same data. */
  lemma LoadTwiceFindsTheFirst(st: Store, s: Session, walletLookup: string, planets: seq<Planet>,
                               base: BaseStats, now: int, later: int)
    requires SignedIn(s) && walletLookup != ""
    ensures var (r1, st1) := Load(st, s, walletLookup, planets, base, now);
      var (r2, st2) := Load(st1, s, walletLookup, planets, base, later);
      && r2.Ok? && r2.value.found && r2.value.userData == r1.value.userData && st2 == st1
  {
  }

  /** What a successful save stores is what the next load returns. */
  lemma SaveThenLoad(st: Store, s: Session, walletLookup: string, body: SaveBody,
                     planets: seq<Planet>, base: BaseStats, now: int, later: int)
    requires Save(st, s, walletLookup, body, planets, base, now).0.Ok?
    ensures var (r1, st1) := Save(st, s, walletLookup, body, planets, base, now);
      Load(st1, s, walletLookup, planets, base, later) == (Ok(LoadReply(r1.value.savedData, true)), st1)
  {
  }

  /** A save touches only the signed-in user's record. */
  lemma SaveIsolatesUsers(st: Store, s: Session, walletLookup: string, body: SaveBody,
                          planets: seq<Planet>, base: BaseStats, now: int, other: string)
    requires SignedIn(s) && other != s.id
    ensures var st1 := Save(st, s, walletLookup, body, planets, base, now).1;
      && (other in st1.users <==> other in st.users)
      && (other in st.users ==> st1.users[other] == st.users[other])
      && st1.flags == st.flags
  {
  }

  /** Saving the same body twice stores what saving it once stores, apart
      from the save time. */
  lemma SaveIdempotent(st: Store, s: Session, walletLookup: string, body: SaveBody,
                       planets: seq<Planet>, base: BaseStats, now: int)
    requires Save(st, s, walletLookup, body, planets, base, now).0.Ok?
    ensures var (r1, st1) := Save(st, s, walletLookup, body, planets, base, now);
      Save(st1, s, walletLookup, body, planets, base, now) == (r1, st1)
  {
    var existing := if s.id in st.users then st.users[s.id] else DefaultUserData(s.id, walletLookup, planets, base, now);
    MergeShipLaws(existing.ship, body.ship.value);
    var (r1, st1) := Save(st, s, walletLookup, body, planets, base, now);
    var d := r1.value.savedData;
    assert s.id in st1.users && st1.users[s.id] == d;
    var (r2, st2) := Save(st1, s, walletLookup, body, planets, base, now);
    assert r2.value.savedData == d;
    assert st2.users == st1.users[s.id := d] == st1.users;
  }

  /** A merge with an empty patch is the identity; merging a patch twice is
      merging it once. */
  lemma MergeShipLaws(ship: Ship, patch: ShipPatch)
    ensures MergeShip(ship, ShipPatch(None, None, None, None, None)) == ship
    ensures MergeShip(MergeShip(ship, patch), patch) == MergeShip(ship, patch)
  {
  }
}
