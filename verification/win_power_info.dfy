/** The Windows back end of the battery model. Every query asks the OS for a
    `SYSTEM_BATTERY_STATE`; the OS call itself is an input here: `None` when
    it did not return `STATUS_SUCCESS`, otherwise the state it filled in. */
module WinPowerInfo {
  import opened Wrappers
  import PowerInfoBase

  /** A `DWORD`. */
  type Uint32 = x: int | 0 <= x < 0x1_0000_0000

  /** `BATTERY_UNKNOWN_RATE`. */
  const BatteryUnknownRate: Uint32 := 0x8000_0000

  /** The fields of `SYSTEM_BATTERY_STATE` the back end reads. */
  datatype BatteryState = BatteryState(
    acOnLine: bool,
    batteryPresent: bool,
    charging: bool,
    discharging: bool,
    rate: Uint32,
    remainingCapacity: Uint32)

  /** Returning a `DWORD` as an `int`: the bits are reinterpreted as a
      two's-complement 32-bit value. */
  function ToInt32(x: Uint32): (r: int)
    ensures -0x8000_0000 <= r < 0x8000_0000
    ensures r == x || r == x - 0x1_0000_0000
  {
    if x < 0x8000_0000 then x else x - 0x1_0000_0000
  }

  /** `PowerInfoHelper::hasBattery`: false for a null state. */
  function HasBattery(p: Option<BatteryState>): (r: bool)
    ensures r <==> p.Some? && p.value.batteryPresent
  {
    match p
    case None => false
    case Some(st) => st.batteryPresent
  }

  /** `PowerInfoHelper::batteryCharging`: false for a null state. */
  function BatteryCharging(p: Option<BatteryState>): (r: bool)
    ensures r <==> p.Some? && p.value.charging
  {
    match p
    case None => false
    case Some(st) => st.charging
  }

  /** `PowerInfoHelper::batteryFullyCharged`. The source's second disjunct
      (`Rate == 0`) is implied by the first, so on AC power the answer is
      "the rate is known, or the OS says it is discharging". */
  function BatteryFullyCharged(p: Option<BatteryState>): (r: bool)
    ensures p.None? ==> !r
    ensures p.Some? && !p.value.acOnLine ==> !r
    ensures p.Some? && p.value.acOnLine ==>
      (r <==> p.value.rate != BatteryUnknownRate || p.value.discharging)
  {
    match p
    case None => false
    case Some(st) =>
      if !st.acOnLine then false
      else if st.rate != BatteryUnknownRate || st.rate == 0 then true
      else st.discharging
  }

  /** `PowerInfo::hasBattery`: a failed OS call reads as "no battery". */
  function QueryHasBattery(reply: Option<BatteryState>): bool {
    if reply.None? then false else HasBattery(reply)
  }

  /** `PowerInfo::batteryFullyCharged`. */
  function QueryFullyCharged(reply: Option<BatteryState>): bool {
    if reply.None? then false else BatteryFullyCharged(reply)
  }

  /** `PowerInfo::batteryCharging`. */
  function QueryCharging(reply: Option<BatteryState>): bool {
    if reply.None? then false else BatteryCharging(reply)
  }

  /** `PowerInfo::chargeRate`: the raw `Rate`, as an `int`. */
  function QueryChargeRate(reply: Option<BatteryState>): int {
    match reply
    case None => 0
    case Some(st) => ToInt32(st.rate)
  }

  /** `PowerInfo::dischargeRate` simply forwards to `chargeRate`. */
  function QueryDischargeRate(reply: Option<BatteryState>): int {
    QueryChargeRate(reply)
  }

  /** `PowerInfo::currentCapacity`: `RemainingCapacity`, as an `int`. */
  function QueryCapacity(reply: Option<BatteryState>): int {
    match reply
    case None => 0
    case Some(st) => ToInt32(st.remainingCapacity)
  }

  /** The telemetry the base class sees when every query gets `reply`. */
  function Telemetry(reply: Option<BatteryState>): (t: PowerInfoBase.Telemetry)
    ensures reply.None? ==>
      t == PowerInfoBase.Telemetry(false, false, false, 0, 0, 0)
    ensures t.dischargeRate == t.chargeRate
    ensures reply.Some? ==> t.hasBattery == reply.value.batteryPresent
    ensures reply.Some? ==> t.charging == reply.value.charging
    ensures reply.Some? ==> t.fullyCharged == BatteryFullyCharged(reply)
    ensures reply.Some? ==> t.chargeRate == ToInt32(reply.value.rate)
    ensures reply.Some? ==> t.capacity == ToInt32(reply.value.remainingCapacity)
  {
    PowerInfoBase.Telemetry(
      QueryHasBattery(reply), QueryFullyCharged(reply), QueryCharging(reply),
      QueryChargeRate(reply), QueryDischargeRate(reply), QueryCapacity(reply))
  }

  /** When the OS call fails the machine is taken to have no battery, and
      the flat estimate (0.06 after the division by 1000) is reported. */
  lemma FailedQueryReportsNoBattery(e: PowerInfoBase.Estimator)
    ensures PowerInfoBase.PowerDrawInWatts(e, Telemetry(None)).0.state == PowerInfoBase.NoBattery
    ensures PowerInfoBase.PowerDrawInWatts(e, Telemetry(None)).1 == 0.06
  {
  }

  /** On AC power with a known rate the machine is classified FullyCharged,
      even while the OS reports it as charging, because the fully-charged
      test comes first. */
  lemma AcWithKnownRateIsFullyCharged(e: PowerInfoBase.Estimator, st: BatteryState)
    requires st.batteryPresent && st.acOnLine && st.rate != BatteryUnknownRate
    ensures PowerInfoBase.UpdateState(e, Telemetry(Some(st))).state == PowerInfoBase.FullyCharged
  {
  }

  /** An unknown rate reads as the most negative `int`, which counts as
      "no usable discharge rate" and so drives the capacity-based estimate. */
  lemma UnknownRateIsNegative(st: BatteryState)
    requires st.rate == BatteryUnknownRate
    ensures QueryDischargeRate(Some(st)) == -0x8000_0000
  {
  }
}
