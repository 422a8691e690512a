/** `Utils::Translation`: one string in one locale, and its JSON form
    `{"locale": …, "string": …}`. */
module Translations {
  import opened Json
  import Seqs

  /** A `QLocale`: either the unspecified locale a default translation
      carries, or one built from a locale name such as "de_DE". */
  datatype Locale = AnyLocale | NamedLocale(name: string)

  datatype Translation = Translation(text: string, locale: Locale) {
    /** A translation is empty when its string is. */
    predicate IsEmpty() {
      text == ""
    }
  }

  /** The default translation: no string, unspecified locale. */
  function Default(): (t: Translation)
    ensures t.IsEmpty() && t.locale == AnyLocale
  {
    Translation("", AnyLocale)
  }

  /** `setString`: replaces the string and keeps the locale. */
  function SetString(t: Translation, text: string): (r: Translation)
    ensures r.text == text && r.locale == t.locale
    ensures r.IsEmpty() <==> text == ""
  {
    t.(text := text)
  }

  /** `setLocale`: replaces the locale and keeps the string. */
  function SetLocale(t: Translation, locale: Locale): (r: Translation)
    ensures r.locale == locale && r.text == t.text
    ensures r.IsEmpty() == t.IsEmpty()
  {
    t.(locale := locale)
  }

  /** `fromJson`: anything but an object yields the default translation; an
      object yields the text of its "string" member in the locale named by
      its "locale" member, each read as empty unless it is a JSON string. */
  function FromJson(j: Json): (t: Translation)
    ensures !j.JObj? ==> t == Default()
    ensures j.JObj? ==> t.locale.NamedLocale?
    ensures !t.IsEmpty() <==> j.JObj? && Value(j.members, "string").JStr? && Value(j.members, "string").s != ""
    ensures j.JObj? && Value(j.members, "locale").JStr? ==> t.locale == NamedLocale(Value(j.members, "locale").s)
    ensures j.JObj? ==> t.text == (if Value(j.members, "string").JStr? then Value(j.members, "string").s else "")
    ensures j.JObj? ==> t.locale.name == (if Value(j.members, "locale").JStr? then Value(j.members, "locale").s else "")
  {
    if !j.JObj? then Default()
    else Translation(AsString(Value(j.members, "string")), NamedLocale(AsString(Value(j.members, "locale"))))
  }

  /** The JSON form of a translation with a named locale: the inverse of
      `FromJson` on such translations. */
  function ToJson(t: Translation): (j: Json)
    requires t.locale.NamedLocale?
  {
    JObj([("locale", JStr(t.locale.name)), ("string", JStr(t.text))])
  }

  lemma FromJsonInvertsToJson(t: Translation)
    requires t.locale.NamedLocale?
    ensures FromJson(ToJson(t)) == t
  {
    var m := ToJson(t).members;
    assert m[0].0 != "string";
    assert Value(m, "string") == JStr(t.text);
  }

  /** The non-empty translations read from a list of JSON values, in order. */
  function FromJsonItems(items: seq<Json>): (r: seq<Translation>)
    ensures |r| <= |items|
    ensures forall i :: 0 <= i < |r| ==> !r[i].IsEmpty()
    ensures forall k :: 0 <= k < |items| && !FromJson(items[k]).IsEmpty() ==> FromJson(items[k]) in r
    decreases |items|
  {
    if items == [] then []
    else
      var t := FromJson(items[0]);
      assert forall k :: 1 <= k < |items| ==> items[k] == items[1..][k - 1];
      (if t.IsEmpty() then [] else [t]) + FromJsonItems(items[1..])
  }

  /** A translation worth keeping in a list. */
  predicate Usable(t: Translation) {
    !t.IsEmpty()
  }

  /** The list decoder is a transform followed by a filter: every element
      is decoded, the empty translations are dropped and the others keep
      their order and multiplicity. */
  lemma {:induction false} FromJsonItemsIsFilteredDecode(items: seq<Json>)
    ensures FromJsonItems(items) == Seqs.Keep(Seqs.MapSeq(items, FromJson), Usable)
    decreases |items|
  {
    if items != [] {
      Seqs.KeepMapCons(items, FromJson, Usable);
      FromJsonItemsIsFilteredDecode(items[1..]);
    }
  }

  /** `fromJsonArray`: the non-empty translations of a JSON array, in array
      order; anything but an array yields none. */
  function FromJsonArray(j: Json): (r: seq<Translation>)
    ensures !j.JArr? ==> r == []
    ensures forall i :: 0 <= i < |r| ==> !r[i].IsEmpty()
    ensures j.JArr? ==> r == Seqs.Keep(Seqs.MapSeq(j.items, FromJson), Usable)
  {
    if j.JArr? then
      FromJsonItemsIsFilteredDecode(j.items);
      FromJsonItems(j.items)
    else []
  }

  function ToJsonItems(ts: seq<Translation>): (r: seq<Json>)
    requires forall i :: 0 <= i < |ts| ==> ts[i].locale.NamedLocale?
    ensures |r| == |ts|
    decreases |ts|
  {
    if ts == [] then [] else [ToJson(ts[0])] + ToJsonItems(ts[1..])
  }

  /** Writing non-empty named translations to a JSON array and reading them
      back gives the same list. */
  lemma FromJsonArrayInvertsToJson(ts: seq<Translation>)
    requires forall i :: 0 <= i < |ts| ==> ts[i].locale.NamedLocale? && !ts[i].IsEmpty()
    ensures FromJsonArray(JArr(ToJsonItems(ts))) == ts
  {
    FromJsonItemsInvertsToJsonItems(ts);
  }

  lemma {:induction false} FromJsonItemsInvertsToJsonItems(ts: seq<Translation>)
    requires forall i :: 0 <= i < |ts| ==> ts[i].locale.NamedLocale? && !ts[i].IsEmpty()
    ensures FromJsonItems(ToJsonItems(ts)) == ts
    decreases |ts|
  {
    if ts != [] {
      var items := ToJsonItems(ts);
      assert items[0] == ToJson(ts[0]) && items[1..] == ToJsonItems(ts[1..]);
      FromJsonInvertsToJson(ts[0]);
      assert FromJson(items[0]) == ts[0] && !ts[0].IsEmpty();
      FromJsonItemsInvertsToJsonItems(ts[1..]);
      assert FromJsonItems(items) == [ts[0]] + FromJsonItems(items[1..]);
      assert [ts[0]] + ts[1..] == ts;
    }
  }

  /** Empty translations in the array are dropped without disturbing the
      others. */
  lemma EmptyEntriesAreDropped(a: Translation)
    requires a.locale.NamedLocale? && !a.IsEmpty()
    ensures FromJsonArray(JArr([JNum(1), ToJson(a), JObj([])])) == [a]
  {
    var last: seq<Json> := [JObj([])];
    assert FromJson(JObj([])) == Translation("", NamedLocale(""));
    assert FromJsonItems(last) == [] by { assert last[1..] == []; }
    var two: seq<Json> := [ToJson(a), JObj([])];
    FromJsonInvertsToJson(a);
    assert FromJsonItems(two) == [a] by { assert two[1..] == last; }
    var items: seq<Json> := [JNum(1), ToJson(a), JObj([])];
    assert items[1..] == two;
  }
}
