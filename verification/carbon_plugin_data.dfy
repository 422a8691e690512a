/** `Utils::CarbonPluginData`: a provider plugin's self-description — its
    name, a description, and the territories and regions it covers. */
module PluginData {
  import opened Wrappers
  import opened Json
  import Seqs
  import TranslatedStrings
  import Territories

  type TranslatedString = TranslatedStrings.TranslatedString
  type Territory = Territories.Territory

  datatype CarbonPluginData = CarbonPluginData(name: string, description: string, territories: seq<Territory>)

  function Default(): (p: CarbonPluginData)
    ensures p.name == "" && p.description == "" && p.territories == []
  {
    CarbonPluginData("", "", [])
  }

  /** `territoryList`: the code of every territory, in order. */
  function TerritoryList(p: CarbonPluginData): (r: seq<int>)
    ensures |r| == |p.territories|
    ensures forall i :: 0 <= i < |r| ==> r[i] == p.territories[i].code
  {
    Seqs.MapSeq(p.territories, (t: Territory) => t.code)
  }

  /** `isValid`: the plugin has a name and at least one territory. */
  function IsValid(p: CarbonPluginData): (r: bool)
    ensures r <==> p.name != "" && |p.territories| > 0
  {
    p.name != "" && TerritoryList(p) != []
  }

  predicate Covers(t: Territory, code: int) {
    t.IsValid() && t.code == code
  }

  /** `regions(territory)`: the regions of the first valid territory with
      that code, none when there is no such territory. */
  function Regions(p: CarbonPluginData, code: int): (r: seq<TranslatedString>)
    ensures (forall i :: 0 <= i < |p.territories| ==> !Covers(p.territories[i], code)) ==> r == []
    ensures forall i :: 0 <= i < |p.territories| && Covers(p.territories[i], code) ==>
      (forall j :: 0 <= j < i ==> !Covers(p.territories[j], code)) ==> r == p.territories[i].regions
  {
    match Seqs.FirstIndex(p.territories, (t: Territory) => Covers(t, code))
    case None => []
    case Some(k) => p.territories[k].regions
  }

  /** `regionIds(territory)`: the id of every region of that territory. */
  function RegionIds(p: CarbonPluginData, code: int): (r: seq<string>)
    ensures |r| == |Regions(p, code)|
    ensures forall i :: 0 <= i < |r| ==> r[i] == Regions(p, code)[i].id
  {
    Seqs.MapSeq(Regions(p, code), (s: TranslatedString) => s.id)
  }

  /** The text shown for a region: its translation, or its id when it has
      none. */
  function DisplayText(region: TranslatedString): (r: string)
    ensures TranslatedStrings.TranslatedId(region) != "" ==> r == TranslatedStrings.TranslatedId(region)
    ensures TranslatedStrings.TranslatedId(region) == "" ==> r == region.id
  {
    var translated := TranslatedStrings.TranslatedId(region);
    if translated == "" then region.id else translated
  }

  /** `translatedRegionId(territory, regionId)`: the display text of the
      first region of that territory with that id; empty when there is none. */
  function TranslatedRegionId(p: CarbonPluginData, code: int, regionId: string): (r: string)
    ensures (forall i :: 0 <= i < |Regions(p, code)| ==> Regions(p, code)[i].id != regionId) ==> r == ""
    ensures forall i :: 0 <= i < |Regions(p, code)| && Regions(p, code)[i].id == regionId ==>
      (forall j :: 0 <= j < i ==> Regions(p, code)[j].id != regionId) ==> r == DisplayText(Regions(p, code)[i])
  {
    var regions := Regions(p, code);
    match Seqs.FirstIndex(regions, (s: TranslatedString) => s.id == regionId)
    case None => ""
    case Some(k) => DisplayText(regions[k])
  }

  /** A region listed by `regionIds` always has something to show: the
      lookup by its id succeeds and never yields the empty string. */
  lemma ListedRegionHasDisplayText(p: CarbonPluginData, code: int, regionId: string)
    requires regionId in RegionIds(p, code) && regionId != ""
    ensures TranslatedRegionId(p, code, regionId) != ""
  {
    var regions := Regions(p, code);
    var k :| 0 <= k < |RegionIds(p, code)| && RegionIds(p, code)[k] == regionId;
    assert regions[k].id == regionId;
    var first := Seqs.FirstIndex(regions, (s: TranslatedString) => s.id == regionId);
    assert first.Some?;
    assert regions[first.value].id == regionId;
  }

  /** The unspecified country never has regions, whatever the plugin lists. */
  lemma AnyCountryHasNoRegions(p: CarbonPluginData)
    ensures Regions(p, Territories.AnyCountry) == []
    ensures RegionIds(p, Territories.AnyCountry) == []
  {
  }

  /** `fromJson`: anything but an object yields the default; an object
      yields its "name" and "description" texts and the valid territories of
      its "territories" array. */
  function FromJson(j: Json, systemName: string): (r: CarbonPluginData)
    ensures !j.JObj? ==> r == Default()
    ensures j.JObj? ==>
      && r.name == AsString(Value(j.members, "name"))
      && r.description == AsString(Value(j.members, "description"))
      && r.territories == Territories.FromJsonArray(Value(j.members, "territories"), systemName)
    ensures forall i :: 0 <= i < |r.territories| ==> r.territories[i].IsValid()
  {
    if !j.JObj? then Default()
    else
      var m := j.members;
      CarbonPluginData(AsString(Value(m, "name")), AsString(Value(m, "description")),
                       Territories.FromJsonArray(Value(m, "territories"), systemName))
  }

  /** Every territory a decoded plugin lists is one it has regions for:
      `regions` of a listed code finds the first entry with that code. */
  lemma DecodedTerritoriesAreFound(j: Json, systemName: string, i: nat)
    requires i < |FromJson(j, systemName).territories|
    ensures var p := FromJson(j, systemName);
      exists k :: 0 <= k <= i && p.territories[k].code == p.territories[i].code &&
        Regions(p, p.territories[i].code) == p.territories[k].regions
  {
    var p := FromJson(j, systemName);
    var code := p.territories[i].code;
    var first := Seqs.FirstIndex(p.territories, (t: Territory) => Covers(t, code));
    assert Covers(p.territories[i], code);
    assert first.Some?;
    var k := first.value;
    assert k <= i;
    assert Regions(p, code) == p.territories[k].regions;
  }
}
