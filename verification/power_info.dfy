/** The battery model (`PowerInfoBase`): it classifies the machine into one
    of five power states from battery telemetry, reports the power drawn
    from the grid per state, and keeps a running average of the discharge
    rate estimated from capacity deltas. The six telemetry answers of the
    platform back end are opaque inputs. */
module PowerInfoBase {

  /** `PowerInfoBase::State`. */
  datatype PowerState = Unknown | NoBattery | FullyCharged | Charging | Discharging

  /** The answers of the platform back end's six virtual queries. */
  datatype Telemetry = Telemetry(
    hasBattery: bool,
    fullyCharged: bool,
    charging: bool,
    chargeRate: int,
    dischargeRate: int,
    capacity: int)

  /** The private data of the estimator (rates in mW, capacities in mWh). */
  datatype Estimator = Estimator(
    lastCapacity: int,
    currentCapacity: int,
    chargeRate: int,
    dischargeRate: int,
    averageDischargeRate: int,
    state: PowerState)

  /** The recalibration interval in minutes; the source never changes it. */
  const CheckIntervalMinutes: int := 5

  /** The flat estimate returned for a machine without a battery. */
  const NoBatteryEstimate: int := 60

  /** C++ integer division, which truncates toward zero (unlike Dafny's
      Euclidean `/`): the remainder takes the sign of the dividend. The
      source only divides by the positive constants 5 and 2. */
  function TruncDiv(a: int, b: int): (q: int)
    requires b > 0
    ensures -b < a - q * b < b
    ensures a >= 0 ==> a - q * b >= 0
    ensures a < 0 ==> a - q * b <= 0
  {
    if a >= 0 then a / b
    else
      var m := (-a) / b;
      assert -a == m * b + (-a) % b;
      -m
  }

  /** The two divisions disagree as soon as the dividend is negative and
      not a multiple of the divisor. */
  lemma TruncDivDiffersFromEuclidean()
    ensures TruncDiv(-7, 2) == -3 && -7 / 2 == -4
    ensures TruncDiv(-180, 7) == -25 && -180 / 7 == -26
  {
  }

  /** The private constructor: the averaged discharge rate is seeded from
      the persisted setting, everything else starts at zero/Unknown. */
  function Initial(savedAverage: int): (e: Estimator)
    ensures e.state == Unknown && e.averageDischargeRate == savedAverage
    ensures e.lastCapacity == 0 && e.currentCapacity == 0
    ensures e.chargeRate == 0 && e.dischargeRate == 0
  {
    Estimator(0, 0, 0, 0, savedAverage, Unknown)
  }

  /** `updateState`: classification by precedence (no battery, fully
      charged, charging, discharging). Only the charging state records the
      charge rate, and only the discharging state records the discharge
      rate and capacity; nothing else changes. */
  function UpdateState(e: Estimator, t: Telemetry): (r: Estimator)
    ensures r.state != Unknown
    ensures r.state == NoBattery <==> !t.hasBattery
    ensures r.state == FullyCharged <==> t.hasBattery && t.fullyCharged
    ensures r.state == Charging <==> t.hasBattery && !t.fullyCharged && t.charging
    ensures r.state == Discharging <==> t.hasBattery && !t.fullyCharged && !t.charging
    ensures r.chargeRate == (if r.state == Charging then t.chargeRate else e.chargeRate)
    ensures r.dischargeRate == (if r.state == Discharging then t.dischargeRate else e.dischargeRate)
    ensures r.currentCapacity == (if r.state == Discharging then t.capacity else e.currentCapacity)
    ensures r.lastCapacity == e.lastCapacity
    ensures r.averageDischargeRate == e.averageDischargeRate
  {
    if !t.hasBattery then e.(state := NoBattery)
    else if t.fullyCharged then e.(state := FullyCharged)
    else if t.charging then e.(state := Charging, chargeRate := t.chargeRate)
    else e.(state := Discharging, dischargeRate := t.dischargeRate, currentCapacity := t.capacity)
  }

  /** `avarageDischargeConsumption` (mW). */
  function AverageDischargeConsumption(e: Estimator): int {
    e.averageDischargeRate
  }

  /** `chargeConsumption` (mW): the charger feeds the battery and the
      running system at once. */
  function ChargeConsumption(e: Estimator): int {
    e.chargeRate + AverageDischargeConsumption(e)
  }

  /** The consumption figure selected for a state, before the final
      division by 1000. */
  function Consumption(e: Estimator): int {
    match e.state
    case Unknown => 0
    case NoBattery => NoBatteryEstimate
    case FullyCharged => AverageDischargeConsumption(e)
    case Charging => ChargeConsumption(e)
    case Discharging => 0
  }

  /** `powerDrawInWatts`: refresh the state, then divide the state's
      consumption by 1000. The division applies to every branch, so the
      no-battery estimate of 60 comes out as 0.06. */
  function PowerDrawInWatts(e: Estimator, t: Telemetry): (r: (Estimator, real))
    ensures r.0 == UpdateState(e, t)
    ensures r.0.state == Discharging ==> r.1 == 0.0
    ensures r.0.state == NoBattery ==> r.1 == 0.06
    ensures r.0.state == FullyCharged ==> r.1 * 1000.0 == e.averageDischargeRate as real
    ensures r.0.state == Charging ==> r.1 * 1000.0 == (t.chargeRate + e.averageDischargeRate) as real
  {
    var u := UpdateState(e, t);
    (u, Consumption(u) as real / 1000.0)
  }

  /** Drawing nothing from the grid while on battery: whatever the discharge
      rate, a discharging machine reports zero watts. */
  lemma DischargingDrawsNothing(e: Estimator, t: Telemetry)
    requires t.hasBattery && !t.fullyCharged && !t.charging
    ensures PowerDrawInWatts(e, t).1 == 0.0
  {
  }

  /** The rate implied by a capacity drop over one interval, in mWh per
      hour. It is negative when the capacity rose. */
  function IntervalRate(last: int, current: int): int {
    TruncDiv((last - current) * 60, CheckIntervalMinutes)
  }

  /** The running average after folding in a new rate: the rate itself when
      there is no average yet, otherwise the truncated mean. */
  function Blend(average: int, rate: int): (r: int)
    ensures average == 0 ==> r == rate
    ensures average != 0 ==> (if average <= rate then average <= r <= rate else rate <= r <= average)
    ensures average == rate ==> r == rate
    ensures average != 0 ==> var s := average + rate;
      -1 <= s - 2 * r <= 1 && (s - 2 * r) * s >= 0
  {
    if average == 0 then rate else TruncDiv(average + rate, 2)
  }

  /** `checkLevels`: refresh the state; only while discharging with no
      usable reported rate does it touch the capacity bookkeeping, folding
      the rate implied by the drop since the previous check into the average
      (once a previous capacity is known) and remembering the current
      capacity for next time. */
  function CheckLevels(e: Estimator, t: Telemetry): (r: Estimator)
    ensures var u := UpdateState(e, t);
      && r.state == u.state && r.chargeRate == u.chargeRate
      && r.dischargeRate == u.dischargeRate && r.currentCapacity == u.currentCapacity
    ensures var u := UpdateState(e, t);
      !(u.state == Discharging && u.dischargeRate <= 0) ==>
        r.lastCapacity == e.lastCapacity && r.averageDischargeRate == e.averageDischargeRate
    ensures var u := UpdateState(e, t);
      u.state == Discharging && u.dischargeRate <= 0 ==>
        && r.lastCapacity == t.capacity
        && r.averageDischargeRate ==
             (if e.lastCapacity > 0 then Blend(e.averageDischargeRate, IntervalRate(e.lastCapacity, t.capacity))
              else e.averageDischargeRate)
  {
    var u := UpdateState(e, t);
    if u.state == Discharging && u.dischargeRate <= 0 then
      var average :=
        if u.lastCapacity > 0 then Blend(u.averageDischargeRate, IntervalRate(u.lastCapacity, u.currentCapacity))
        else u.averageDischargeRate;
      u.(averageDischargeRate := average, lastCapacity := u.currentCapacity)
    else u
  }

  /** A steady drain is a fixed point of the estimator: when the capacity
      falls by the same amount that the average already predicts, the
      average stays put. */
  lemma SteadyDrainKeepsAverage(e: Estimator, t: Telemetry)
    requires t.hasBattery && !t.fullyCharged && !t.charging && t.dischargeRate <= 0
    requires e.lastCapacity > 0
    requires e.averageDischargeRate == IntervalRate(e.lastCapacity, t.capacity)
    ensures CheckLevels(e, t).averageDischargeRate == e.averageDischargeRate
    ensures CheckLevels(e, t).lastCapacity == t.capacity
  {
  }

  /** A capacity that rises between checks yields a negative rate, and the
      truncating mean rounds it toward zero: a rise of 2 mWh over one
      interval is a rate of -24, and blending it into an average of 11 gives
      -6 in C++ where Euclidean division would give -7. */
  lemma RisingCapacityTruncatesTowardZero()
    ensures IntervalRate(100, 102) == -24
    ensures Blend(11, -24) == -6
    ensures (11 + -24) / 2 == -7
  {
  }
}
