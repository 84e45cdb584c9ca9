/** Reading the player's owned blueprints from chain metadata: every asset
    the owner holds is loaded (a failed load skips the asset), its JSON
    attributes are scanned for the five blueprint traits, and only assets
    carrying all of them are kept. A failure of the owner query as a whole
    gives an empty list. */
module MetaplexClient {
  import opened Wrappers
  import opened Models
  import opened JsParse

  /** One `{ trait_type, value }` entry of the metadata JSON. */
  datatype Attribute = Attribute(traitType: string, value: TraitValue)

  /** The off-chain JSON of an asset; a missing description is `""`. */
  datatype AssetJson = AssetJson(attributes: Option<seq<Attribute>>, image: Option<string>, description: string)

  /** An asset with its JSON, if that was loaded. */
  datatype Asset = Asset(address: string, name: string, json: Option<AssetJson>)

  /** An entry of the owner query: the asset as listed, whether its JSON was
      loaded, whether it already is a full NFT or SFT, and what loading it
      gives (`None` when the load throws). */
  datatype RawAsset = RawAsset(listed: Asset, jsonLoaded: bool, isFull: bool, load: Option<Asset>)

  const BlueprintIdTrait := "Blueprint ID"
  const EffectTypeTrait := "Effect Type"
  const EffectValueTrait := "Effect Value"
  const TierTrait := "Tier"
  const DescriptionTrait := "Description"
  const UnknownName := "Unknown Blueprint"
  const NoDescription := "No description."

  // ---------------------------------------------------------------------------
  // JavaScript conversions of attribute values

  /** `String(value)`. */
  function JsString(v: TraitValue): (r: string)
    ensures v.Text? ==> r == v.text
    ensures v.Null? ==> r == "null"
    ensures v.Missing? ==> r == "undefined"
    ensures v.Num? ==> ParseInt(r, false) == Some(v.n)
  {
    match v
    case Text(t) => t
    case Num(n) => ParseIntReadsNumeral(n, "", false); assert IntToString(n) + "" == IntToString(n); IntToString(n)
    case Flag(b) => if b then "true" else "false"
    case Null => "null"
    case Missing => "undefined"
  }

  /** `s` without its trailing white space. */
  function TrimEnd(s: string): (r: string)
    ensures |r| <= |s|
    ensures |r| > 0 ==> !IsSpace(r[|r| - 1])
  {
    if |s| > 0 && IsSpace(s[|s| - 1]) then TrimEnd(s[..|s| - 1]) else s
  }

  predicate AllDecimal(s: string) {
    forall i :: 0 <= i < |s| ==> '0' <= s[i] <= '9'
  }

  /** `Number(s)` on a string: blank is 0, an optionally signed run of
      decimal digits is its value, anything else is NaN. */
  function StringToNumber(s: string): (r: JsNumber)
  {
    var core := TrimEnd(TrimStart(s));
    if |core| == 0 then Finite(0)
    else
      var negative := core[0] == '-';
      var digits := if core[0] == '-' || core[0] == '+' then core[1..] else core;
      if |digits| > 0 && AllDecimal(digits) then
        assert forall i :: 0 <= i < |digits| ==> IsDigit(digits[i], 10);
        var v := DigitsValue(digits, 10);
        Finite(if negative then -(v as int) else v)
      else NaN
  }

  /** `Number(value)`. */
  function JsToNumber(v: TraitValue): (r: JsNumber)
    ensures v.Num? ==> r == Finite(v.n)
    ensures v.Null? ==> r == Finite(0)
    ensures v.Missing? ==> r == NaN
    ensures v.Flag? ==> r == Finite(if v.b then 1 else 0)
  {
    match v
    case Text(t) => StringToNumber(t)
    case Num(n) => Finite(n)
    case Flag(b) => Finite(if b then 1 else 0)
    case Null => Finite(0)
    case Missing => NaN
  }

  /** JavaScript truthiness of an attribute value. */
  predicate Truthy(v: TraitValue) {
    match v
    case Text(t) => t != ""
    case Num(n) => n != 0
    case Flag(b) => b
    case Null => false
    case Missing => false
  }

  // ---------------------------------------------------------------------------
  // The attribute scan

  /** The five variables of the scan; `None` is a trait never seen. */
  datatype Traits = Traits(
    blueprintId: Option<string>,
    effectType: Option<TraitValue>,
    effectValue: Option<JsNumber>,
    tier: Option<JsNumber>,
    description: Option<string>)

  /** One iteration of the scan: each matching trait overwrites its variable. */
  function ScanStep(t: Traits, a: Attribute): (r: Traits)
  {
    Traits(
      if a.traitType == BlueprintIdTrait then Some(JsString(a.value)) else t.blueprintId,
      if a.traitType == EffectTypeTrait then Some(a.value) else t.effectType,
      if a.traitType == EffectValueTrait then Some(JsToNumber(a.value)) else t.effectValue,
      if a.traitType == TierTrait then Some(JsToNumber(a.value)) else t.tier,
      if a.traitType == DescriptionTrait then Some(JsString(a.value)) else t.description)
  }

  /** The scan over all attributes, in order. */
  function ScanTraits(attrs: seq<Attribute>): (r: Traits)
  {
    if |attrs| == 0 then Traits(None, None, None, None, None)
    else ScanStep(ScanTraits(attrs[..|attrs| - 1]), attrs[|attrs| - 1])
  }

  /** Index of the last attribute with the trait name, found by searching
      from the end. */
  function LastIndex(attrs: seq<Attribute>, name: string): (r: Option<nat>)
    ensures r.None? <==> forall i :: 0 <= i < |attrs| ==> attrs[i].traitType != name
    ensures r.Some? ==> r.value < |attrs| && attrs[r.value].traitType == name
    ensures r.Some? ==> forall j :: r.value < j < |attrs| ==> attrs[j].traitType != name
  {
    if |attrs| == 0 then None
    else if attrs[|attrs| - 1].traitType == name then Some(|attrs| - 1)
    else
      assert forall i :: 0 <= i < |attrs| - 1 ==> attrs[..|attrs| - 1][i] == attrs[i];
      LastIndex(attrs[..|attrs| - 1], name)
  }

  /** The value of the last attribute with the trait name: the reference the
      scan is measured against. */
  function LastWith(attrs: seq<Attribute>, name: string): (r: Option<TraitValue>)
    ensures r.None? <==> forall i :: 0 <= i < |attrs| ==> attrs[i].traitType != name
  {
    match LastIndex(attrs, name)
    case None => None
    case Some(i) => Some(attrs[i].value)
  }

  function MapOpt<A, B>(o: Option<A>, f: A -> B): Option<B> {
    if o.Some? then Some(f(o.value)) else None
  }

  /** When an attribute appears several times, the last one wins. */
  lemma {:induction false} ScanTraitsTakesLast(attrs: seq<Attribute>)
    ensures ScanTraits(attrs).blueprintId == MapOpt(LastWith(attrs, BlueprintIdTrait), JsString)
    ensures ScanTraits(attrs).effectType == LastWith(attrs, EffectTypeTrait)
    ensures ScanTraits(attrs).effectValue == MapOpt(LastWith(attrs, EffectValueTrait), JsToNumber)
    ensures ScanTraits(attrs).tier == MapOpt(LastWith(attrs, TierTrait), JsToNumber)
    ensures ScanTraits(attrs).description == MapOpt(LastWith(attrs, DescriptionTrait), JsString)
    decreases |attrs|
  {
    if |attrs| > 0 {
      var init := attrs[..|attrs| - 1];
      ScanTraitsTakesLast(init);
      LastWithStep(attrs, BlueprintIdTrait);
      LastWithStep(attrs, EffectTypeTrait);
      LastWithStep(attrs, EffectValueTrait);
      LastWithStep(attrs, TierTrait);
      LastWithStep(attrs, DescriptionTrait);
    }
  }

  /** The last attribute with a name is the final one, or else the last one
      before it. */
  lemma LastWithStep(attrs: seq<Attribute>, name: string)
    requires |attrs| > 0
    ensures LastWith(attrs, name) ==
      if attrs[|attrs| - 1].traitType == name then Some(attrs[|attrs| - 1].value)
      else LastWith(attrs[..|attrs| - 1], name)
  {
    if attrs[|attrs| - 1].traitType != name {
      var init := attrs[..|attrs| - 1];
      assert LastIndex(attrs, name) == LastIndex(init, name);
      if LastIndex(init, name).Some? {
        assert init[LastIndex(init, name).value] == attrs[LastIndex(init, name).value];
      }
    }
  }

  /** The accept condition: an id and a description that are non-empty
      strings, a truthy effect type, and both numbers present (`Number`
      always yields a number, NaN included, so presence is all it asks). */
  predicate Accepts(t: Traits) {
    && t.blueprintId.Some? && t.blueprintId.value != ""
    && t.effectType.Some? && Truthy(t.effectType.value)
    && t.effectValue.Some?
    && t.tier.Some?
    && t.description.Some? && t.description.value != ""
  }

  // ---------------------------------------------------------------------------
  // Processing the assets

  /** The fully loaded asset: the listed one when its JSON is loaded and it is
      already a full NFT or SFT, otherwise the result of loading it. */
  function FullAsset(raw: RawAsset): Option<Asset> {
    if raw.listed.json.Some? && raw.jsonLoaded && raw.isFull then Some(raw.listed) else raw.load
  }

  /** One iteration of the asset loop: the blueprint it yields, if any. */
  function ProcessAsset(raw: RawAsset): (r: Option<ProcessedBlueprint>)
    ensures r.Some? <==>
      && FullAsset(raw).Some? && FullAsset(raw).value.json.Some?
      && FullAsset(raw).value.json.value.attributes.Some?
      && Accepts(ScanTraits(FullAsset(raw).value.json.value.attributes.value))
    ensures r.Some? ==>
      var full := FullAsset(raw).value;
      var json := full.json.value;
      var t := ScanTraits(json.attributes.value);
      && r.value.mintAddress == full.address
      && r.value.name == (if full.name == "" then UnknownName else full.name)
      && r.value.imageUrl == json.image
      && r.value.nftDescription == (if json.description == "" then NoDescription else json.description)
      && r.value.parsedAttributes == ParsedAttributes(t.blueprintId.value, t.effectType.value,
           t.effectValue.value, t.tier.value, t.description.value)
  {
    match FullAsset(raw)
    case None => None
    case Some(full) =>
      if full.json.None? || full.json.value.attributes.None? then None
      else
        var json := full.json.value;
        var t := ScanTraits(json.attributes.value);
        if !Accepts(t) then None
        else
          Some(ProcessedBlueprint(
            full.address,
            if full.name == "" then UnknownName else full.name,
            json.image,
            if json.description == "" then NoDescription else json.description,
            ParsedAttributes(t.blueprintId.value, t.effectType.value, t.effectValue.value,
                             t.tier.value, t.description.value)))
  }

  /** The asset loop: the blueprints of the accepted assets, in order. */
  function ProcessAll(assets: seq<RawAsset>): (r: seq<ProcessedBlueprint>)
    ensures |r| <= |assets|
    ensures forall x :: x in r ==> exists i :: 0 <= i < |assets| && ProcessAsset(assets[i]) == Some(x)
    ensures forall i :: 0 <= i < |assets| && ProcessAsset(assets[i]).Some? ==> ProcessAsset(assets[i]).value in r
  {
    if |assets| == 0 then []
    else
      var rest := ProcessAll(assets[1..]);
      assert forall i :: 1 <= i < |assets| ==> assets[i] == assets[1..][i - 1];
      match ProcessAsset(assets[0])
      case None => rest
      case Some(b) => [b] + rest
  }

  /** The loop keeps the input order: processing a concatenation is
      processing each part in turn. */
  lemma {:induction false} ProcessAllAppend(a: seq<RawAsset>, b: seq<RawAsset>)
    ensures ProcessAll(a + b) == ProcessAll(a) + ProcessAll(b)
    decreases |a|
  {
    if |a| == 0 {
      assert a + b == b;
    } else {
      assert (a + b)[0] == a[0];
      assert (a + b)[1..] == a[1..] + b;
      ProcessAllAppend(a[1..], b);
    }
  }

  /** One asset yields its blueprint, or nothing. */
  lemma ProcessAllSingle(raw: RawAsset)
    ensures ProcessAll([raw]) == (if ProcessAsset(raw).Some? then [ProcessAsset(raw).value] else [])
  {
    assert [raw][1..] == [];
  }

  /** `fetchAndProcessOwnedBlueprints`: `found` is the owner query's result,
      `None` when it throws. */
  function FetchOwnedBlueprints(found: Option<seq<RawAsset>>): (r: seq<ProcessedBlueprint>)
    ensures found.None? ==> r == []
    ensures found.Some? ==> r == ProcessAll(found.value)
  {
    if found.None? then [] else ProcessAll(found.value)
  }

  /** Counting view of the loop: exactly the accepted assets yield a
      blueprint, one each. */
  function AcceptedCount(assets: seq<RawAsset>): nat {
    if |assets| == 0 then 0
    else (if ProcessAsset(assets[0]).Some? then 1 else 0) + AcceptedCount(assets[1..])
  }

  lemma {:induction false} ProcessAllCountsAccepted(assets: seq<RawAsset>)
    ensures |ProcessAll(assets)| == AcceptedCount(assets)
    decreases |assets|
  {
    if |assets| > 0 {
      ProcessAllCountsAccepted(assets[1..]);
    }
  }

  /** Every kept blueprint carries a non-empty id and description. */
  lemma ProcessedAreWellFormed(found: Option<seq<RawAsset>>, x: ProcessedBlueprint)
    requires x in FetchOwnedBlueprints(found)
    ensures x.parsedAttributes.blueprintId != "" && x.parsedAttributes.description != ""
    ensures x.name != "" && x.nftDescription != ""
  {
  }

  /** An asset whose load throws is skipped, and so is one missing any of
      the five traits. */
  lemma MissingTraitSkips(raw: RawAsset, name: string)
    requires FullAsset(raw).Some? && FullAsset(raw).value.json.Some?
    requires FullAsset(raw).value.json.value.attributes.Some?
    requires name in {BlueprintIdTrait, EffectTypeTrait, EffectValueTrait, TierTrait, DescriptionTrait}
    requires forall a :: a in FullAsset(raw).value.json.value.attributes.value ==> a.traitType != name
    ensures ProcessAsset(raw).None?
  {
    var attrs := FullAsset(raw).value.json.value.attributes.value;
    ScanTraitsTakesLast(attrs);
    assert LastWith(attrs, name).None?;
  }
}
