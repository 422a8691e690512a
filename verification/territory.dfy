/** `Utils::Territory`: a country code, a description and the regions the
    provider offers there. */
module Territories {
  import opened Json
  import Text
  import TranslatedStrings
  import Seqs

  /** `QLocale::AnyCountry`, the code of no particular country. */
  const AnyCountry: int := 0

  /** `QLocale::Country` is an enumeration with a 16-bit unsigned underlying
      type, so a code cast to it keeps only its value modulo 2^16. */
  const CountryRange: int := 0x1_0000

  datatype Territory = Territory(code: int, description: string, regions: seq<TranslatedStrings.TranslatedString>) {
    /** A territory is valid when it names a particular country. */
    predicate IsValid() {
      code != AnyCountry
    }

    predicate HasRegions() {
      |regions| > 0
    }
  }

  function Default(): (t: Territory)
    ensures !t.IsValid() && !t.HasRegions() && t.description == ""
  {
    Territory(AnyCountry, "", [])
  }

  /** `fromJson`: anything but an object, and an object without a
      "territory" member, yield the default; otherwise the code is the
      member's 32-bit integer value (0 unless it is such a number) cast to
      the 16-bit country enumeration, with the "description" text and the
      "regions" list. */
  function FromJson(j: Json, systemName: string): (t: Territory)
    ensures 0 <= t.code < CountryRange
    ensures !(j.JObj? && HasKey(j.members, "territory")) ==> t == Default()
    ensures j.JObj? && HasKey(j.members, "territory") ==>
      && t.code == AsInt(Value(j.members, "territory")) % CountryRange
      && t.description == AsString(Value(j.members, "description"))
      && t.regions == TranslatedStrings.FromJsonArray(Value(j.members, "regions"), systemName)
    ensures t.IsValid() <==>
      j.JObj? && Value(j.members, "territory").JNum? &&
      Text.Int32Min <= Value(j.members, "territory").n <= Text.Int32Max &&
      Value(j.members, "territory").n % CountryRange != AnyCountry
  {
    if !j.JObj? || !HasKey(j.members, "territory") then Default()
    else
      var m := j.members;
      Territory(AsInt(Value(m, "territory")) % CountryRange, AsString(Value(m, "description")),
                TranslatedStrings.FromJsonArray(Value(m, "regions"), systemName))
  }

  /** The JSON form of a territory without regions. */
  function ToJson(code: int, description: string): Json {
    JObj([("territory", JNum(code)), ("description", JStr(description))])
  }

  lemma FromJsonInvertsToJson(code: int, description: string, systemName: string)
    requires 0 <= code < CountryRange
    ensures FromJson(ToJson(code, description), systemName) == Territory(code, description, [])
  {
    var m := ToJson(code, description).members;
    assert HasKey(m, "territory") by { assert m[0].0 == "territory"; }
    assert m[0].0 != "description" && m[0].0 != "regions" && m[1].0 != "regions";
  }

  /** The valid territories read from a list of JSON values, in order. */
  function FromJsonItems(items: seq<Json>, systemName: string): (r: seq<Territory>)
    ensures |r| <= |items|
    ensures forall i :: 0 <= i < |r| ==> r[i].IsValid()
    decreases |items|
  {
    if items == [] then []
    else
      var t := FromJson(items[0], systemName);
      (if t.IsValid() then [t] else []) + FromJsonItems(items[1..], systemName)
  }

  /** A territory worth keeping in a list. */
  predicate Usable(t: Territory) {
    t.IsValid()
  }

  /** The list decoder is a transform followed by a filter: every element
      is decoded, the invalid territories are dropped and the others keep
      their order and multiplicity. */
  lemma {:induction false} FromJsonItemsIsFilteredDecode(items: seq<Json>, systemName: string)
    ensures FromJsonItems(items, systemName)
         == Seqs.Keep(Seqs.MapSeq(items, (j: Json) => FromJson(j, systemName)), Usable)
    decreases |items|
  {
    if items != [] {
      Seqs.KeepMapCons(items, (j: Json) => FromJson(j, systemName), Usable);
      FromJsonItemsIsFilteredDecode(items[1..], systemName);
    }
  }

  /** No valid entry is lost: every element that decodes to a valid
      territory appears in the list. */
  lemma ValidItemsAreKept(items: seq<Json>, systemName: string, k: nat)
    requires k < |items| && FromJson(items[k], systemName).IsValid()
    ensures FromJson(items[k], systemName) in FromJsonItems(items, systemName)
  {
    var decoded := Seqs.MapSeq(items, (j: Json) => FromJson(j, systemName));
    assert decoded[k] == FromJson(items[k], systemName);
    FromJsonItemsIsFilteredDecode(items, systemName);
  }

  /** `fromJsonArray`: the valid territories of a JSON array, in array
      order; anything but an array yields none. */
  function FromJsonArray(j: Json, systemName: string): (r: seq<Territory>)
    ensures !j.JArr? ==> r == []
    ensures forall i :: 0 <= i < |r| ==> r[i].IsValid()
    ensures j.JArr? ==> r == Seqs.Keep(Seqs.MapSeq(j.items, (j: Json) => FromJson(j, systemName)), Usable)
  {
    if j.JArr? then
      FromJsonItemsIsFilteredDecode(j.items, systemName);
      FromJsonItems(j.items, systemName)
    else []
  }

  /** Codes wrap at 16 bits: 65536 lands on the unspecified country and is
      dropped as invalid, and -1 becomes 65535. */
  lemma CodesWrapToSixteenBits(systemName: string)
    ensures !FromJson(ToJson(CountryRange, "x"), systemName).IsValid()
    ensures FromJson(ToJson(-1, "x"), systemName).code == CountryRange - 1
  {
    var m := ToJson(CountryRange, "x").members;
    assert HasKey(m, "territory") by { assert m[0].0 == "territory"; }
    var n := ToJson(-1, "x").members;
    assert HasKey(n, "territory") by { assert n[0].0 == "territory"; }
  }

  /** Entries with no "territory" member, with code 0, or with a code that
      is not a number are all dropped from the list. */
  lemma UnusableTerritoriesAreDropped(systemName: string)
    ensures FromJsonArray(JArr([JObj([("description", JStr("x"))]),
                                ToJson(AnyCountry, "y"),
                                JObj([("territory", JStr("DE"))])]), systemName) == []
  {
    var a := JObj([("description", JStr("x"))]);
    var b := ToJson(AnyCountry, "y");
    var c := JObj([("territory", JStr("DE"))]);
    assert !HasKey(a.members, "territory") by { assert "description" != "territory"; }
    assert Value(b.members, "territory") == JNum(0);
    assert Value(c.members, "territory") == JStr("DE");
    assert !FromJson(a, systemName).IsValid();
    assert !FromJson(b, systemName).IsValid();
    assert !FromJson(c, systemName).IsValid();
    var last: seq<Json> := [c];
    assert FromJsonItems(last, systemName) == [] by { assert last[1..] == []; }
    var two: seq<Json> := [b, c];
    assert FromJsonItems(two, systemName) == [] by { assert two[1..] == last; }
    var items: seq<Json> := [a, b, c];
    assert items[1..] == two;
  }
}
