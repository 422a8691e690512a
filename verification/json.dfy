/** An already-parsed JSON document, and the `QJsonValue` conversions the
    decoders use. A key that an object lacks reads as `JNull`: Qt returns an
    undefined value there, which behaves like null for every conversion
    below (`isNull() || !isObject()`, `toString()`, `toInt()`, `isArray()`). */
module Json {
  import Text

  datatype Json =
    | JNull
    | JBool(b: bool)
    | JNum(n: int)
    | JStr(s: string)
    | JArr(items: seq<Json>)
    | JObj(members: seq<(string, Json)>)

  /** Neither an object nor an array. */
  predicate IsScalar(j: Json) {
    !j.JArr? && !j.JObj?
  }

  /** `QJsonObject::contains(key)`. */
  predicate HasKey(members: seq<(string, Json)>, key: string) {
    exists i :: 0 <= i < |members| && members[i].0 == key
  }

  /** `QJsonObject::value(key)`: the value stored under `key` (the first
      one, should a hand-built object repeat a key), or null. */
  function Value(members: seq<(string, Json)>, key: string): (r: Json)
    ensures !HasKey(members, key) ==> r == JNull
    ensures HasKey(members, key) ==>
      exists i :: 0 <= i < |members| && members[i] == (key, r) &&
        forall j :: 0 <= j < i ==> members[j].0 != key
    decreases |members|
  {
    if members == [] then JNull
    else if members[0].0 == key then members[0].1
    else
      var r := Value(members[1..], key);
      assert forall i :: 1 <= i < |members| ==> members[i] == members[1..][i - 1];
      r
  }

  /** `QJsonValue::toString()`: the text of a string value, otherwise empty. */
  function AsString(j: Json): (r: string)
    ensures j.JStr? ==> r == j.s
    ensures !j.JStr? ==> r == ""
  {
    if j.JStr? then j.s else ""
  }

  /** `QJsonValue::toInt()`: a number that fits in a 32-bit `int`, otherwise 0. */
  function AsInt(j: Json): (r: int)
    ensures Text.Int32Min <= r <= Text.Int32Max
    ensures j.JNum? && Text.Int32Min <= j.n <= Text.Int32Max ==> r == j.n
    ensures !j.JNum? ==> r == 0
  {
    if j.JNum? && Text.Int32Min <= j.n <= Text.Int32Max then j.n else 0
  }
}
