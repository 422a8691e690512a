/** The two classifications the engine publishes: how carbon-intense the
    grid is right now, and when it is best to charge. */
module Levels {

  /** `CarbonUsageLevel`, declared from least to most intense. */
  datatype UsageLevel = VeryLow | Low | Medium | High | VeryHigh

  /** The enumerator's position in its declaration (its underlying value). */
  function Ordinal(l: UsageLevel): (r: nat)
    ensures r <= 4
  {
    match l
    case VeryLow => 0
    case Low => 1
    case Medium => 2
    case High => 3
    case VeryHigh => 4
  }

  /** `ChargeForecast`. */
  datatype ChargeForecast = ChargeNow | ChargeIn30 | ChargeIn60 | ChargeWhenNeeded
}
