/** The UK provider's reply decoder (`Utilities` of the UK plugin): routing a
    parsed reply to the error or the data path, flattening nested JSON into a
    multi-hash, and turning that hash into a `CarbonData`. The network
    request and the JSON text parser are not modelled: the decoder receives
    the outcome of parsing. */
module UkUtilities {
  import opened Wrappers
  import opened Json
  import opened CarbonData
  import Text
  import Seqs

  type Members = seq<(string, Json)>

  /** A `QMultiHash<QString, QVariant>`, as its entries in insertion order. */
  type FlatHash = seq<(string, Json)>

  /** What the HTTP body turned out to be: empty, not JSON text (with the raw
      text and the parser's error description, code and offset), or a parsed
      document. An object's members are in the order a `QJsonObject`
      iterates them, which is key order. */
  datatype Reply =
    | EmptyReply
    | Unparsable(data: string, detail: string, code: int, offset: int)
    | Document(doc: Json)

  // ---------------------------------------------------------------------
  // Sizes, for termination of the flattening worklist
  // ---------------------------------------------------------------------

  function Size(j: Json): (n: nat)
    ensures n >= 1
    decreases j
  {
    match j
    case JArr(a) => 1 + ItemsSize(a)
    case JObj(m) => 1 + MembersSize(m)
    case _ => 1
  }

  function ItemsSize(a: seq<Json>): nat
    decreases a
  {
    if a == [] then 0 else Size(a[0]) + ItemsSize(a[1..])
  }

  function MembersSize(m: Members): nat
    decreases m
  {
    if m == [] then 0
    else
      assert m[0].1 < m[0];
      Size(m[0].1) + MembersSize(m[1..])
  }

  function QueueSize(q: seq<Members>): nat
    decreases |q|
  {
    if q == [] then 0 else MembersSize(q[0]) + QueueSize(q[1..])
  }

  lemma {:induction false} QueueSizeAppend(a: seq<Members>, b: seq<Members>)
    ensures QueueSize(a + b) == QueueSize(a) + QueueSize(b)
    decreases |a|
  {
    if a == [] {
      assert a + b == b;
    } else {
      assert (a + b)[1..] == a[1..] + b;
      QueueSizeAppend(a[1..], b);
    }
  }

  /** The objects sitting directly in an array, in order; scalars and nested
      arrays are skipped. */
  function ObjectsOf(a: seq<Json>): seq<Members>
    decreases |a|
  {
    if a == [] then []
    else (if a[0].JObj? then [a[0].members] else []) + ObjectsOf(a[1..])
  }

  lemma {:induction false} ObjectsOfSize(a: seq<Json>)
    ensures QueueSize(ObjectsOf(a)) <= ItemsSize(a)
    decreases |a|
  {
    if a != [] {
      ObjectsOfSize(a[1..]);
      var head := if a[0].JObj? then [a[0].members] else [];
      QueueSizeAppend(head, ObjectsOf(a[1..]));
      if a[0].JObj? {
        assert QueueSize(head) == MembersSize(a[0].members);
      }
    }
  }

  // ---------------------------------------------------------------------
  // flatJsonHash
  // ---------------------------------------------------------------------

  /** The worklist loop of `flatJsonHash`: take the first key of the first
      pending object; a nested object joins the end of the worklist, so do
      the objects inside an array value; any other value is recorded under
      its key. */
  function FlattenQueue(q: seq<Members>): (r: FlatHash)
    ensures forall i :: 0 <= i < |r| ==> IsScalar(r[i].1)
    decreases QueueSize(q), |q|
  {
    if q == [] then []
    else if q[0] == [] then FlattenQueue(q[1..])
    else
      var obj := q[0];
      var (key, value) := obj[0];
      var rest := [obj[1..]] + q[1..];
      assert QueueSize(rest) == MembersSize(obj[1..]) + QueueSize(q[1..]) by {
        assert rest[0] == obj[1..] && rest[1..] == q[1..];
      }
      assert MembersSize(obj) == Size(value) + MembersSize(obj[1..]);
      match value
      case JObj(m) =>
        QueueSizeAppend(rest, [m]);
        assert QueueSize([m]) == MembersSize(m) by { assert [m][1..] == []; }
        FlattenQueue(rest + [m])
      case JArr(a) =>
        QueueSizeAppend(rest, ObjectsOf(a));
        ObjectsOfSize(a);
        FlattenQueue(rest + ObjectsOf(a))
      case _ =>
        [(key, value)] + FlattenQueue(rest)
  }

  /** `flatJsonHash(top)`. */
  function FlatJsonHash(top: Members): (r: FlatHash)
    ensures forall i :: 0 <= i < |r| ==> IsScalar(r[i].1)
  {
    FlattenQueue([top])
  }

  /** Reference definition of what the flattening collects, by plain
      structural recursion: every scalar reached through nested objects, or
      through objects that are elements of arrays, paired with its own key. */
  function Scalars(m: Members): FlatHash
    decreases MembersSize(m)
  {
    if m == [] then []
    else
      var (key, value) := m[0];
      assert MembersSize(m) == Size(value) + MembersSize(m[1..]);
      var here :=
        match value
        case JObj(inner) => Scalars(inner)
        case JArr(a) => ArrayScalars(a)
        case _ => [(key, value)];
      here + Scalars(m[1..])
  }

  function ArrayScalars(a: seq<Json>): FlatHash
    decreases ItemsSize(a)
  {
    if a == [] then []
    else
      assert ItemsSize(a) == Size(a[0]) + ItemsSize(a[1..]);
      var here := if a[0].JObj? then Scalars(a[0].members) else [];
      here + ArrayScalars(a[1..])
  }

  function QueueScalars(q: seq<Members>): FlatHash
    decreases |q|
  {
    if q == [] then [] else Scalars(q[0]) + QueueScalars(q[1..])
  }

  lemma {:induction false} QueueScalarsAppend(a: seq<Members>, b: seq<Members>)
    ensures QueueScalars(a + b) == QueueScalars(a) + QueueScalars(b)
    decreases |a|
  {
    if a == [] {
      assert a + b == b;
    } else {
      assert (a + b)[1..] == a[1..] + b;
      QueueScalarsAppend(a[1..], b);
    }
  }

  lemma {:induction false} ArrayScalarsAreObjectScalars(a: seq<Json>)
    ensures ArrayScalars(a) == QueueScalars(ObjectsOf(a))
    decreases |a|
  {
    if a != [] {
      ArrayScalarsAreObjectScalars(a[1..]);
      var head := if a[0].JObj? then [a[0].members] else [];
      QueueScalarsAppend(head, ObjectsOf(a[1..]));
      if a[0].JObj? {
        assert QueueScalars(head) == Scalars(a[0].members) by { assert head[1..] == []; }
      }
    }
  }

  /** The breadth-first worklist collects exactly the scalars of the
      reference definition, each as often: only the order differs. */
  lemma {:induction false} FlattenQueueCollectsScalars(q: seq<Members>)
    ensures multiset(FlattenQueue(q)) == multiset(QueueScalars(q))
    decreases QueueSize(q), |q|
  {
    if q == [] {
    } else if q[0] == [] {
      FlattenQueueCollectsScalars(q[1..]);
    } else {
      var obj := q[0];
      var (key, value) := obj[0];
      var rest := [obj[1..]] + q[1..];
      assert QueueSize(rest) == MembersSize(obj[1..]) + QueueSize(q[1..]) by {
        assert rest[0] == obj[1..] && rest[1..] == q[1..];
      }
      assert MembersSize(obj) == Size(value) + MembersSize(obj[1..]);
      assert QueueScalars(rest) == Scalars(obj[1..]) + QueueScalars(q[1..]) by {
        assert rest[0] == obj[1..] && rest[1..] == q[1..];
      }
      match value
      case JObj(m) =>
        QueueSizeAppend(rest, [m]);
        assert QueueSize([m]) == MembersSize(m) by { assert [m][1..] == []; }
        FlattenQueueCollectsScalars(rest + [m]);
        QueueScalarsAppend(rest, [m]);
        assert QueueScalars([m]) == Scalars(m) by { assert [m][1..] == []; }
      case JArr(a) =>
        QueueSizeAppend(rest, ObjectsOf(a));
        ObjectsOfSize(a);
        FlattenQueueCollectsScalars(rest + ObjectsOf(a));
        QueueScalarsAppend(rest, ObjectsOf(a));
        ArrayScalarsAreObjectScalars(a);
      case _ =>
        FlattenQueueCollectsScalars(rest);
    }
  }

  /** `flatJsonHash` holds exactly the scalars of the reference definition. */
  lemma FlatJsonHashCollectsScalars(top: Members)
    ensures multiset(FlatJsonHash(top)) == multiset(Scalars(top))
  {
    FlattenQueueCollectsScalars([top]);
    assert QueueScalars([top]) == Scalars(top) by { assert [top][1..] == []; }
  }

  /** Scalars directly inside an array, and arrays inside arrays, contribute
      nothing; an object inside an array does. */
  lemma ArraysKeepOnlyTheirObjects()
    ensures FlatJsonHash([("a", JArr([JNum(1), JArr([JObj([("b", JNum(2))])])]))]) == []
    ensures FlatJsonHash([("a", JArr([JObj([("b", JNum(2))])]))]) == [("b", JNum(2))]
  {
    var nested: seq<Json> := [JNum(1), JArr([JObj([("b", JNum(2))])])];
    assert ObjectsOf(nested) == [] by {
      assert nested[1..][1..] == [];
    }
    assert FlattenQueue([[]]) == [] by { var e: seq<Members> := [[]]; assert e[1..] == []; }
    var q: seq<Members> := [[("a", JArr(nested))]];
    assert q[0][1..] == [] && q[1..] == [];
    assert [q[0][1..]] + q[1..] == [[]];
    assert FlattenQueue(q) == FlattenQueue([[]] + ObjectsOf(nested));

    var inner: Members := [("b", JNum(2))];
    var single: seq<Json> := [JObj(inner)];
    assert ObjectsOf(single) == [inner] by { assert single[1..] == []; }
    var q2: seq<Members> := [[("a", JArr(single))]];
    assert q2[0][1..] == [] && q2[1..] == [];
    assert FlattenQueue(q2) == FlattenQueue([[]] + [inner]);
    assert FlattenQueue([[], inner]) == FlattenQueue([inner]) by { assert [[], inner][1..] == [inner]; }
    assert FlattenQueue([inner]) == [("b", JNum(2))] + FlattenQueue([[]]) by {
      assert inner[1..] == [] && [inner][1..] == [];
      assert [inner[1..]] + [inner][1..] == [[]];
    }
    assert [[]] + [inner] == [[], inner];
  }

  // ---------------------------------------------------------------------
  // Reading the multi-hash
  // ---------------------------------------------------------------------

  /** The entries stored under `key`, oldest first. */
  function Entries(h: FlatHash, key: string): (r: FlatHash)
    ensures |r| <= |h|
    ensures forall j :: 0 <= j < |r| ==> r[j] in h && r[j].0 == key
    ensures |r| == 0 <==> forall i :: 0 <= i < |h| ==> h[i].0 != key
    decreases |h|
  {
    if h == [] then []
    else
      var rest := Entries(h[1..], key);
      assert forall i :: 1 <= i < |h| ==> h[i] == h[1..][i - 1];
      (if h[0].0 == key then [h[0]] else []) + rest
  }

  /** An inserted entry joins the entries of its key as the newest one. */
  lemma {:induction false} EntriesAppend(h: FlatHash, k: string, v: Json, key: string)
    ensures Entries(h + [(k, v)], key) == Entries(h, key) + (if k == key then [(k, v)] else [])
    decreases |h|
  {
    var e: FlatHash := [(k, v)];
    if h == [] {
      assert h + e == e && e[1..] == [];
    } else {
      assert (h + e)[0] == h[0];
      assert (h + e)[1..] == h[1..] + e;
      EntriesAppend(h[1..], k, v, key);
    }
  }

  /** The values of a list of entries, newest (last) first. */
  function NewestFirst(entries: FlatHash): (r: seq<Json>)
    ensures |r| == |entries|
    ensures forall i :: 0 <= i < |r| ==> r[i] == entries[|r| - 1 - i].1
    decreases |entries|
  {
    if entries == [] then []
    else [entries[|entries| - 1].1] + NewestFirst(entries[..|entries| - 1])
  }

  /** `QMultiHash::values(key)`: every value stored under `key`, from the
      most recently inserted to the least recently inserted, one per entry. */
  function Values(h: FlatHash, key: string): (r: seq<Json>)
    ensures |r| == |Entries(h, key)|
    ensures forall i :: 0 <= i < |r| ==> r[i] == Entries(h, key)[|r| - 1 - i].1
    ensures forall i :: 0 <= i < |r| ==> (key, r[i]) in h
    ensures |r| == 0 <==> forall i :: 0 <= i < |h| ==> h[i].0 != key
  {
    var entries := Entries(h, key);
    var r := NewestFirst(entries);
    assert forall i :: 0 <= i < |r| ==> (key, r[i]) in h by {
      forall i | 0 <= i < |r|
        ensures (key, r[i]) in h
      {
        var e := entries[|r| - 1 - i];
        assert e in h && e.0 == key;
        assert (key, r[i]) == e;
      }
    }
    r
  }

  /** Inserting an entry puts its value in front of the values of its own
      key and leaves every other key's values alone. */
  lemma ValuesOfNewEntry(h: FlatHash, k: string, v: Json, key: string)
    ensures Values(h + [(k, v)], key) == (if k == key then [v] else []) + Values(h, key)
  {
    EntriesAppend(h, k, v, key);
  }

  /** `QMultiHash::value(key, default)`: the most recently inserted value
      under `key`, or `default`. */
  function ValueOr(h: FlatHash, key: string, default: Json): (r: Json)
    ensures (forall i :: 0 <= i < |h| ==> h[i].0 != key) ==> r == default
    ensures (exists i :: 0 <= i < |h| && h[i].0 == key) ==> (key, r) in h
    ensures |h| > 0 && h[|h| - 1].0 == key ==> r == h[|h| - 1].1
    ensures Values(h, key) != [] ==> r == Values(h, key)[0]
  {
    var vs := Values(h, key);
    if |h| > 0 && h[|h| - 1].0 == key then
      assert h == h[..|h| - 1] + [h[|h| - 1]];
      ValuesOfNewEntry(h[..|h| - 1], key, h[|h| - 1].1, key);
      vs[0]
    else if vs == [] then default else vs[0]
  }

  /** `QVariant::toString()` for the scalar kinds the hash holds. */
  function VariantToString(j: Json): string {
    match j
    case JStr(s) => s
    case JNum(n) => Text.IntToString(n)
    case JBool(b) => if b then "true" else "false"
    case _ => ""
  }

  /** `QVariant::toInt()`: numbers as they are, booleans as 0/1, strings
      that parse as a 32-bit integer, and 0 for everything else. */
  function VariantToInt(j: Json): (r: int)
    ensures j.JNum? ==> r == j.n
    ensures j.JBool? ==> r == (if j.b then 1 else 0)
    ensures j.JStr? ==> Text.Int32Min <= r <= Text.Int32Max
    ensures j.JStr? && Text.ParseInt(j.s).Some? && Text.Int32Min <= Text.ParseInt(j.s).value <= Text.Int32Max
      ==> r == Text.ParseInt(j.s).value
    ensures j.JStr? && (Text.ParseInt(j.s).None? || !(Text.Int32Min <= Text.ParseInt(j.s).value <= Text.Int32Max))
      ==> r == 0
    ensures j.JNull? || j.JArr? || j.JObj? ==> r == 0
  {
    match j
    case JNum(n) => n
    case JBool(b) => if b then 1 else 0
    case JStr(s) =>
      var p := Text.ParseInt(s);
      if p.Some? && Text.Int32Min <= p.value <= Text.Int32Max then p.value else 0
    case _ => 0
  }

  /** A 32-bit number reads the same whether the reply sends it as a JSON
      number or as its decimal text. */
  lemma NumberAndTextAgree(n: int)
    requires Text.Int32Min <= n <= Text.Int32Max
    ensures VariantToInt(JStr(Text.IntToString(n))) == VariantToInt(JNum(n)) == n
  {
    Text.IntToStringRoundTrip(n);
  }

  // ---------------------------------------------------------------------
  // fromApiError, fromApiResponse, fromByteArray
  // ---------------------------------------------------------------------

  const UnspecifiedApiError: string := "An unspecified API error was received."
  const CorruptResponse: string := "Response data seems corrupt."
  const EmptyReplyMessage: string := "Empty reply received."
  const NotAnObjectMessage: string := "Empty or invalid JSON received by API."

  function ApiErrorMessage(message: string, code: string): string {
    "The API returned an error: " + message + "(" + code + ")."
  }

  /** A field of an error hash as text: `fallback` when the hash has no
      entry for `key`, otherwise the text of the most recently inserted
      value under it. */
  function FieldText(h: FlatHash, key: string, fallback: string): (r: string)
    ensures (forall i :: 0 <= i < |h| ==> h[i].0 != key) ==> r == fallback
    ensures (exists i :: 0 <= i < |h| && h[i].0 == key) ==>
      exists i :: 0 <= i < |h| && h[i].0 == key && r == VariantToString(h[i].1)
    ensures Values(h, key) != [] ==> r == VariantToString(Values(h, key)[0])
  {
    var v := ValueOr(h, key, JStr(fallback));
    assert (exists i :: 0 <= i < |h| && h[i].0 == key) ==> (key, v) in h;
    VariantToString(v)
  }

  /** `fromApiError`: always an invalid reading. */
  function FromApiError(h: FlatHash): (r: CarbonData)
    ensures !r.isValid
    ensures h == [] ==> r == Error(UnspecifiedApiError)
    ensures h != [] ==> r == Error(ApiErrorMessage(FieldText(h, "message", "none"), FieldText(h, "code", "unknown")))
  {
    if h == [] then Error(UnspecifiedApiError)
    else Error(ApiErrorMessage(FieldText(h, "message", "none"), FieldText(h, "code", "unknown")))
  }

  /** The i-th forecast value as an integer, or the absent sentinel. */
  function ForecastAt(forecasts: seq<Json>, i: nat): (r: int)
    ensures i >= |forecasts| ==> r == Absent
    ensures i < |forecasts| ==> r == VariantToInt(forecasts[i])
  {
    if i < |forecasts| then VariantToInt(forecasts[i]) else Absent
  }

  /** A reply date: the current time when the field is empty, otherwise
      whatever the date parser makes of it (null when it fails). */
  function ReplyDate(text: string, clock: int, parseDate: string -> DateTime): (d: DateTime)
    ensures text == "" ==> d == At(clock)
    ensures text != "" ==> d == parseDate(text)
  {
    if text == "" then At(clock) else parseDate(text)
  }

  /** `fromApiResponse`: invalid exactly when the hash is empty. Otherwise a
      valid reading whose now/next/later are the first three entries of the
      hash's "forecast" values, -1 for each one missing. */
  function FromApiResponse(h: FlatHash, clock: int, parseDate: string -> DateTime): (r: CarbonData)
    ensures r.isValid <==> h != []
    ensures h == [] ==> r == Error(CorruptResponse)
    ensures h != [] ==> r.errorString == ""
    ensures h != [] ==>
      && r.now == ForecastAt(Values(h, "forecast"), 0)
      && r.next == ForecastAt(Values(h, "forecast"), 1)
      && r.later == ForecastAt(Values(h, "forecast"), 2)
    ensures h != [] && (forall i :: 0 <= i < |h| ==> h[i].0 != "forecast") ==>
      r.now == Absent && r.next == Absent && r.later == Absent
    ensures h != [] && (forall i :: 0 <= i < |h| ==> h[i].0 != "from") ==> r.validFrom == At(clock)
    ensures h != [] && (forall i :: 0 <= i < |h| ==> h[i].0 != "to") ==> r.validTo == At(clock)
    ensures h != [] ==>
      && r.validFrom == ReplyDate(VariantToString(ValueOr(h, "from", JNull)), clock, parseDate)
      && r.validTo == ReplyDate(VariantToString(ValueOr(h, "to", JNull)), clock, parseDate)
  {
    if h == [] then Error(CorruptResponse)
    else
      var forecasts := Values(h, "forecast");
      var fromText := VariantToString(ValueOr(h, "from", JNull));
      var toText := VariantToString(ValueOr(h, "to", JNull));
      Ok(ForecastAt(forecasts, 0), ForecastAt(forecasts, 1), ForecastAt(forecasts, 2),
         ReplyDate(fromText, clock, parseDate), ReplyDate(toText, clock, parseDate))
  }

  /** The fixed text around the raw reply in a parse-error message. */
  const ParseErrorLead: string := "The supplied data("
  const ParseErrorMiddle: string := ") seems not to be a valid JSON text. Error: "

  /** The message for text that is not JSON; it embeds the raw text and the
      parser's description, error number and offset. The raw text can be
      read back from the message: it sits between the fixed lead and the
      fixed middle, and the parser's description follows. */
  function ParseErrorMessage(data: string, detail: string, code: int, offset: int): (r: string)
    ensures var k := |ParseErrorLead| + |data|;
      && |r| > k + |ParseErrorMiddle| + |detail|
      && r[..|ParseErrorLead|] == ParseErrorLead
      && r[|ParseErrorLead|..k] == data
      && r[k..k + |ParseErrorMiddle|] == ParseErrorMiddle
      && r[k + |ParseErrorMiddle|..k + |ParseErrorMiddle| + |detail|] == detail
      && r[|r| - 1] == '.'
  {
    var tail := "(#" + Text.IntToString(code) + ") at " + Text.IntToString(offset) + ".";
    assert tail[|tail| - 1] == '.';
    FourPartsAreReadable(ParseErrorLead, data, ParseErrorMiddle, detail, tail);
    ParseErrorLead + data + ParseErrorMiddle + detail + tail
  }

  /** Each part of a five-part concatenation sits at the offset the lengths
      of the parts before it give. */
  lemma FourPartsAreReadable(a: string, b: string, c: string, d: string, e: string)
    requires e != []
    ensures var s := a + b + c + d + e;
      && |s| == |a| + |b| + |c| + |d| + |e|
      && s[..|a|] == a
      && s[|a|..|a| + |b|] == b
      && s[|a| + |b|..|a| + |b| + |c|] == c
      && s[|a| + |b| + |c|..|a| + |b| + |c| + |d|] == d
      && s[|s| - 1] == e[|e| - 1]
  {
    var s := a + b + c + d + e;
    assert s == a + (b + (c + (d + e)));
    var s1 := b + (c + (d + e));
    assert s[|a|..] == s1;
    var s2 := c + (d + e);
    assert s1[|b|..] == s2;
    assert s2[|c|..] == d + e;
  }

  /** `QJsonDocument::isEmpty() || !isObject()`: a parsed document is never
      empty (`isEmpty` only holds for a document with no data at all), so
      every object, even `{}`, goes on to be decoded. */
  predicate UsableDocument(doc: Json) {
    doc.JObj?
  }

  /** `fromByteArray`: empty, unparsable, empty and non-object replies are
      errors; an object with a top-level "error" key goes to `fromApiError`,
      any other object to `fromApiResponse`. */
  function FromByteArray(reply: Reply, clock: int, parseDate: string -> DateTime): (r: CarbonData)
    ensures reply.EmptyReply? ==> r == Error(EmptyReplyMessage)
    ensures reply.Unparsable? ==> !r.isValid && r.errorString != ""
    ensures reply.Unparsable? ==>
      r == Error(ParseErrorMessage(reply.data, reply.detail, reply.code, reply.offset))
    ensures reply.Document? && !UsableDocument(reply.doc) ==> r == Error(NotAnObjectMessage)
    ensures reply.Document? && UsableDocument(reply.doc) && HasKey(reply.doc.members, "error") ==>
      !r.isValid && r == FromApiError(FlatJsonHash(reply.doc.members))
    ensures reply.Document? && UsableDocument(reply.doc) && !HasKey(reply.doc.members, "error") ==>
      r == FromApiResponse(FlatJsonHash(reply.doc.members), clock, parseDate)
    ensures r.isValid <==>
      reply.Document? && UsableDocument(reply.doc) && !HasKey(reply.doc.members, "error") &&
      FlatJsonHash(reply.doc.members) != []
  {
    match reply
    case EmptyReply => Error(EmptyReplyMessage)
    case Unparsable(data, detail, code, offset) => Error(ParseErrorMessage(data, detail, code, offset))
    case Document(doc) =>
      if !UsableDocument(doc) then Error(NotAnObjectMessage)
      else
        var hash := FlatJsonHash(doc.members);
        if HasKey(doc.members, "error") then FromApiError(hash)
        else FromApiResponse(hash, clock, parseDate)
  }

  /** An empty top-level object passes the document check, flattens to
      nothing and is rejected as corrupt. */
  lemma EmptyObjectIsCorrupt(clock: int, parseDate: string -> DateTime)
    ensures FromByteArray(Document(JObj([])), clock, parseDate) == Error(CorruptResponse)
  {
    var e: seq<Members> := [[]];
    assert FlatJsonHash([]) == [] by { assert e[1..] == []; }
    assert !HasKey([], "error");
  }

  /** An empty top-level object, and an object whose only member is an
      empty object, both flatten to nothing and are rejected as corrupt. */
  lemma EmptyObjectsAreInvalid(clock: int, parseDate: string -> DateTime)
    ensures FromByteArray(Document(JObj([])), clock, parseDate) == Error(CorruptResponse)
    ensures FromByteArray(Document(JObj([("data", JObj([]))])), clock, parseDate) == Error(CorruptResponse)
  {
    EmptyObjectIsCorrupt(clock, parseDate);
    var top: Members := [("data", JObj([]))];
    assert FlatJsonHash(top) == [] by {
      assert top[0].1 == JObj([]);
      assert top[1..] == [];
      assert [top[1..]] + [top][1..] + [[]] == [[], []];
      var e: seq<Members> := [[], []];
      assert e[1..] == [[]];
      var f: seq<Members> := [[]];
      assert f[1..] == [];
    }
    assert !HasKey(top, "error") by { assert "data" != "error"; }
  }

  /** A reply holding data but no forecast is still a valid reading, with
      all three intensities at the absent sentinel. */
  lemma ReplyWithoutForecastIsValid(clock: int, parseDate: string -> DateTime)
    ensures var r := FromByteArray(Document(JObj([("from", JStr(""))])), clock, parseDate);
      r.isValid && r.now == Absent && r.next == Absent && r.later == Absent
  {
    var top: Members := [("from", JStr(""))];
    assert FlatJsonHash(top) == top by {
      var q: seq<Members> := [top];
      assert q[0] == top && q[0][0] == ("from", JStr("")) && q[1..] == [];
      var rest: seq<Members> := [top[1..]] + q[1..];
      assert rest == [[]];
      assert FlattenQueue(rest) == [] by { assert rest[0] == [] && rest[1..] == []; }
      assert FlattenQueue(q) == [("from", JStr(""))] + FlattenQueue(rest);
    }
    assert !HasKey(top, "error") by { assert "from" != "error"; }
    assert forall i :: 0 <= i < |top| ==> top[i].0 != "forecast" by { assert "from" != "forecast"; }
  }
}
