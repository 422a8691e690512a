/** The `CarbonData` reply structure: the grid carbon intensity (grams of CO2
    per kWh) now, next and later, whether the reading is usable, an error
    text, and the window in which it may be reused. */
module CarbonData {

  /** A `QDateTime`: null, or a point in time in milliseconds. */
  datatype DateTime = NullDate | At(ms: int)

  /** `a > b` in Qt's ordering, where a null datetime comes before every
      valid one and two null datetimes are equal. */
  predicate After(a: DateTime, b: DateTime) {
    match (a, b)
    case (NullDate, _) => false
    case (At(_), NullDate) => true
    case (At(x), At(y)) => x > y
  }

  /** The sentinel the provider uses for an absent intensity. */
  const Absent: int := -1

  /** The seven-argument constructor of the source is this datatype's own
      constructor: it stores every field verbatim, with no cross-field
      normalisation (a valid reading may carry an error text). */
  datatype CarbonData = CarbonData(
    now: int,
    next: int,
    later: int,
    isValid: bool,
    errorString: string,
    validFrom: DateTime,
    validTo: DateTime)

  /** The default constructor: an invalid, empty reading. */
  function Default(): (d: CarbonData)
    ensures d.now == Absent && d.next == Absent && d.later == Absent
    ensures !d.isValid && d.errorString == ""
    ensures d.validFrom == NullDate && d.validTo == NullDate
  {
    CarbonData(Absent, Absent, Absent, false, "", NullDate, NullDate)
  }

  /** `CarbonData::ok`: a usable reading holding its arguments unchanged;
      there is no range check on the intensities. */
  function Ok(now: int, next: int, later: int, validFrom: DateTime, validTo: DateTime): (d: CarbonData)
    ensures d.isValid && d.errorString == ""
    ensures d.now == now && d.next == next && d.later == later
    ensures d.validFrom == validFrom && d.validTo == validTo
  {
    CarbonData(now, next, later, true, "", validFrom, validTo)
  }

  /** `CarbonData::error`: an unusable reading carrying the message verbatim,
      even an empty one. */
  function Error(message: string): (d: CarbonData)
    ensures !d.isValid && d.errorString == message
    ensures d.now == Absent && d.next == Absent && d.later == Absent
    ensures d.validFrom == NullDate && d.validTo == NullDate
  {
    CarbonData(Absent, Absent, Absent, false, message, NullDate, NullDate)
  }

  /** The two factory functions never produce the same value, and an error
      with an empty message is exactly the default object. */
  lemma OkAndErrorDiffer(now: int, next: int, later: int, from: DateTime, to: DateTime, message: string)
    ensures Ok(now, next, later, from, to) != Error(message)
    ensures Error("") == Default()
  {
  }

  /** A zero reading with null dates is still accepted as valid. */
  lemma ZeroReadingIsValid()
    ensures Ok(0, 0, 0, NullDate, NullDate).isValid
  {
  }
}
