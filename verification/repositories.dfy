/** The three read-only repositories over the static game data. The data
    sets themselves are parameters: each repository serves whatever sequence
    it was loaded with, and a lookup returns the first record with the id. */
module Repositories {
  import opened Wrappers
  import opened Seqs
  import opened Models

  /** `planetRepository.getAll`: the loaded planets, unchanged. */
  function GetAllPlanets(data: seq<Planet>): (r: seq<Planet>)
    ensures |r| == |data| && forall i :: 0 <= i < |data| ==> r[i] == data[i]
  {
    data
  }

  /** `planetRepository.getById`: the first planet with the id, if any. */
  function GetPlanetById(data: seq<Planet>, id: string): (r: Option<Planet>)
    ensures r.None? <==> forall i :: 0 <= i < |data| ==> data[i].id != id
    ensures r.Some? ==> exists i :: 0 <= i < |data| && data[i] == r.value && data[i].id == id
                                   && forall k :: 0 <= k < i ==> data[k].id != id
  {
    Find(data, (p: Planet) => p.id == id)
  }

  /** `planetRepository.getMarketListings`: the planet's listings, or none
      for an unknown planet. */
  function GetMarketListings(data: seq<Planet>, planetId: string): (r: seq<Listing>)
    ensures (forall i :: 0 <= i < |data| ==> data[i].id != planetId) ==> r == []
    ensures forall i :: 0 <= i < |data| && data[i].id == planetId && (forall k :: 0 <= k < i ==> data[k].id != planetId) ==>
      r == data[i].listings
  {
    match GetPlanetById(data, planetId)
    case None => []
    case Some(p) => p.listings
  }

  /** `blueprintDefinitionRepository.getAll`. */
  function GetAllBlueprints(data: seq<BlueprintDefinition>): (r: seq<BlueprintDefinition>)
    ensures |r| == |data| && forall i :: 0 <= i < |data| ==> r[i] == data[i]
  {
    data
  }

  /** `blueprintDefinitionRepository.getById`. */
  function GetBlueprintById(data: seq<BlueprintDefinition>, id: string): (r: Option<BlueprintDefinition>)
    ensures r.None? <==> forall i :: 0 <= i < |data| ==> data[i].id != id
    ensures r.Some? ==> exists i :: 0 <= i < |data| && data[i] == r.value && data[i].id == id
                                   && forall k :: 0 <= k < i ==> data[k].id != id
  {
    Find(data, (b: BlueprintDefinition) => b.id == id)
  }

  /** `commodityRepository.getAll`. */
  function GetAllCommodities(data: seq<Commodity>): (r: seq<Commodity>)
    ensures |r| == |data| && forall i :: 0 <= i < |data| ==> r[i] == data[i]
  {
    data
  }

  /** `commodityRepository.getById`. */
  function GetCommodityById(data: seq<Commodity>, id: string): (r: Option<Commodity>)
    ensures r.None? <==> forall i :: 0 <= i < |data| ==> data[i].id != id
    ensures r.Some? ==> exists i :: 0 <= i < |data| && data[i] == r.value && data[i].id == id
                                   && forall k :: 0 <= k < i ==> data[k].id != id
  {
    Find(data, (c: Commodity) => c.id == id)
  }

  /** With distinct planet ids, `getById` returns exactly the planet of
      `getAll` that carries the id, and `getMarketListings` its listings. */
  lemma PlanetLookupAgreesWithGetAll(data: seq<Planet>, i: int)
    requires 0 <= i < |data|
    requires forall a, b :: 0 <= a < b < |data| ==> data[a].id != data[b].id
    ensures GetPlanetById(data, data[i].id) == Some(GetAllPlanets(data)[i])
    ensures GetMarketListings(data, data[i].id) == data[i].listings
  {
    var r := GetPlanetById(data, data[i].id);
    var k :| 0 <= k < |data| && data[k] == r.value && data[k].id == data[i].id
             && forall m :: 0 <= m < k ==> data[m].id != data[i].id;
    assert k == i;
  }

  /** A commodity lookup with distinct ids returns the record of `getAll`. */
  lemma CommodityLookupAgreesWithGetAll(data: seq<Commodity>, i: int)
    requires 0 <= i < |data|
    requires forall a, b :: 0 <= a < b < |data| ==> data[a].id != data[b].id
    ensures GetCommodityById(data, data[i].id) == Some(GetAllCommodities(data)[i])
  {
    var r := GetCommodityById(data, data[i].id);
    var k :| 0 <= k < |data| && data[k] == r.value && data[k].id == data[i].id
             && forall m :: 0 <= m < k ==> data[m].id != data[i].id;
    assert k == i;
  }

  /** A blueprint lookup with distinct ids returns the record of `getAll`. */
  lemma BlueprintLookupAgreesWithGetAll(data: seq<BlueprintDefinition>, i: int)
    requires 0 <= i < |data|
    requires forall a, b :: 0 <= a < b < |data| ==> data[a].id != data[b].id
    ensures GetBlueprintById(data, data[i].id) == Some(GetAllBlueprints(data)[i])
  {
    var r := GetBlueprintById(data, data[i].id);
    var k :| 0 <= k < |data| && data[k] == r.value && data[k].id == data[i].id
             && forall m :: 0 <= m < k ==> data[m].id != data[i].id;
    assert k == i;
  }
}
