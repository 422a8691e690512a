/** `Utils::TranslatedString`: an identifier paired with its translation
    into the system locale, chosen once when the value is built. */
module TranslatedStrings {
  import opened Json
  import opened Translations
  import Seqs

  datatype TranslatedString = TranslatedString(id: string, translated: string) {
    /** A translated string is empty when its id is. */
    predicate IsEmpty() {
      id == ""
    }
  }

  function Default(): (s: TranslatedString)
    ensures s.IsEmpty() && s.translated == ""
  {
    TranslatedString("", "")
  }

  /** A translation suits the system locale when it has a string and its
      locale carries the system locale's name. */
  predicate Fits(t: Translation, systemName: string) {
    !t.IsEmpty() && t.locale == NamedLocale(systemName)
  }

  /** `translate`: the string of the first translation that suits the
      system locale, or the empty string when none does. */
  function Translate(ts: seq<Translation>, systemName: string): (r: string)
    ensures r == "" <==> forall i :: 0 <= i < |ts| ==> !Fits(ts[i], systemName)
    ensures forall i :: 0 <= i < |ts| && Fits(ts[i], systemName) ==>
      (forall j :: 0 <= j < i ==> !Fits(ts[j], systemName)) ==> r == ts[i].text
  {
    match Seqs.FirstIndex(ts, t => Fits(t, systemName))
    case None => ""
    case Some(k) => ts[k].text
  }

  /** The constructor: keeps the id and translates it once, against the
      system locale of that moment. */
  function Make(id: string, translations: seq<Translation>, systemName: string): (r: TranslatedString)
    ensures r.id == id
    ensures r.translated == "" <==> forall i :: 0 <= i < |translations| ==> !Fits(translations[i], systemName)
    ensures r.translated == Translate(translations, systemName)
  {
    TranslatedString(id, Translate(translations, systemName))
  }

  /** `translatedId`: empty for an empty string, otherwise the translation
      chosen at construction (itself empty when none suited). */
  function TranslatedId(s: TranslatedString): (r: string)
    ensures s.IsEmpty() ==> r == ""
    ensures !s.IsEmpty() ==> r == s.translated
  {
    if s.IsEmpty() then "" else s.translated
  }

  /** `fromJson`: anything but an object yields the default; an object
      yields its "id" member, translated by the list under "translations"
      when that key is present. */
  function FromJson(j: Json, systemName: string): (r: TranslatedString)
    ensures !j.JObj? ==> r == Default()
    ensures j.JObj? ==> r.id == AsString(Value(j.members, "id"))
    ensures j.JObj? && !HasKey(j.members, "translations") ==> r.translated == ""
    ensures j.JObj? && HasKey(j.members, "translations") ==>
      r.translated == Translate(Translations.FromJsonArray(Value(j.members, "translations")), systemName)
  {
    if !j.JObj? then Default()
    else
      var translations :=
        if HasKey(j.members, "translations")
        then Translations.FromJsonArray(Value(j.members, "translations"))
        else [];
      Make(AsString(Value(j.members, "id")), translations, systemName)
  }

  /** The JSON form `{"id": …, "translations": […]}`. */
  function ToJson(id: string, translations: seq<Translation>): Json
    requires forall i :: 0 <= i < |translations| ==> translations[i].locale.NamedLocale?
  {
    JObj([("id", JStr(id)), ("translations", JArr(Translations.ToJsonItems(translations)))])
  }

  /** Reading the JSON form back gives what the constructor builds. */
  lemma FromJsonInvertsToJson(id: string, translations: seq<Translation>, systemName: string)
    requires forall i :: 0 <= i < |translations| ==> translations[i].locale.NamedLocale? && !translations[i].IsEmpty()
    ensures FromJson(ToJson(id, translations), systemName) == Make(id, translations, systemName)
  {
    var m := ToJson(id, translations).members;
    assert m[0].0 != "translations";
    assert Value(m, "translations") == JArr(Translations.ToJsonItems(translations));
    assert HasKey(m, "translations") by { assert m[1].0 == "translations"; }
    Translations.FromJsonArrayInvertsToJson(translations);
  }

  /** The non-empty translated strings read from a list of JSON values. */
  function FromJsonItems(items: seq<Json>, systemName: string): (r: seq<TranslatedString>)
    ensures |r| <= |items|
    ensures forall i :: 0 <= i < |r| ==> !r[i].IsEmpty()
    ensures forall k :: 0 <= k < |items| && !FromJson(items[k], systemName).IsEmpty() ==>
      FromJson(items[k], systemName) in r
    decreases |items|
  {
    if items == [] then []
    else
      var s := FromJson(items[0], systemName);
      assert forall k :: 1 <= k < |items| ==> items[k] == items[1..][k - 1];
      (if s.IsEmpty() then [] else [s]) + FromJsonItems(items[1..], systemName)
  }

  /** A translated string worth keeping in a list. */
  predicate Usable(t: TranslatedString) {
    !t.IsEmpty()
  }

  /** The list decoder is a transform followed by a filter: every element
      is decoded, the ones without an id are dropped and the others keep
      their order and multiplicity. */
  lemma {:induction false} FromJsonItemsIsFilteredDecode(items: seq<Json>, systemName: string)
    ensures FromJsonItems(items, systemName)
         == Seqs.Keep(Seqs.MapSeq(items, (j: Json) => FromJson(j, systemName)), Usable)
    decreases |items|
  {
    if items != [] {
      Seqs.KeepMapCons(items, (j: Json) => FromJson(j, systemName), Usable);
      FromJsonItemsIsFilteredDecode(items[1..], systemName);
    }
  }

  /** `fromJsonArray`: the translated strings of a JSON array whose id is
      not empty, in array order; anything but an array yields none. */
  function FromJsonArray(j: Json, systemName: string): (r: seq<TranslatedString>)
    ensures !j.JArr? ==> r == []
    ensures forall i :: 0 <= i < |r| ==> !r[i].IsEmpty()
    ensures j.JArr? ==> r == Seqs.Keep(Seqs.MapSeq(j.items, (j: Json) => FromJson(j, systemName)), Usable)
  {
    if j.JArr? then
      FromJsonItemsIsFilteredDecode(j.items, systemName);
      FromJsonItems(j.items, systemName)
    else []
  }

  /** Of two translations for the system locale, the earlier one wins;
      translations for other locales are passed over. */
  lemma FirstFittingTranslationWins(other: Translation, first: Translation, second: Translation, systemName: string)
    requires !Fits(other, systemName) && Fits(first, systemName) && Fits(second, systemName)
    ensures Translate([other, first, second], systemName) == first.text
  {
    var ts := [other, first, second];
    assert Fits(ts[1], systemName) && !Fits(ts[0], systemName);
  }

  /** Without a translation for the system locale the translated id is empty,
      however many translations there are. */
  lemma UnmatchedLocaleLeavesTranslationEmpty(id: string, translations: seq<Translation>, systemName: string)
    requires id != ""
    requires forall i :: 0 <= i < |translations| ==> translations[i].locale != NamedLocale(systemName)
    ensures TranslatedId(Make(id, translations, systemName)) == ""
  {
  }
}
