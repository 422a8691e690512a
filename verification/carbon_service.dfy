/** The carbon-accounting engine (`CarbonService`). Once a minute it reads
    the machine's power draw and a (possibly cached) carbon-intensity
    reading, adds the grams of CO2 for that minute to the session and
    lifetime totals, and reclassifies the usage level and charge forecast.
    The timer, the clock, the power draw and the provider's reply are
    parameters; Qt signals become per-field "changed" flags. */
module CarbonService {
  import opened Wrappers
  import opened Levels
  import opened CarbonData

  /** The engine's private state. */
  datatype Service = Service(
    session: real,
    lifetime: real,
    level: UsageLevel,
    forecast: ChargeForecast,
    cache: CarbonData)

  /** Which change notifications a step emitted. */
  datatype Changes = Changes(session: bool, lifetime: bool, level: bool, forecast: bool)

  const NoChanges: Changes := Changes(false, false, false, false)

  /** What one tick sees of the outside world: whether the settings service
      and the plugin manager exist, the current time, the power draw the
      battery model reports, and what the provider would answer if asked. */
  datatype Env = Env(hasSettings: bool, hasManager: bool, clock: int, draw: real, reply: CarbonData)

  /** The outcome of a tick: the new state, whether the provider was asked,
      and the notifications emitted. */
  datatype Step = Step(service: Service, queried: bool, changes: Changes)

  // ---------------------------------------------------------------------
  // Classifiers
  // ---------------------------------------------------------------------

  /** `calculateUsageLevel`: fixed integer thresholds on grams per kWh. */
  function UsageLevelOf(co2: int): (r: UsageLevel)
    ensures r == VeryLow <==> co2 <= 49
    ensures r == Low <==> 50 <= co2 <= 129
    ensures r == Medium <==> 130 <= co2 <= 209
    ensures r == High <==> 210 <= co2 <= 310
    ensures r == VeryHigh <==> 311 <= co2
  {
    if co2 <= 49 then VeryLow
    else if co2 <= 129 then Low
    else if co2 <= 209 then Medium
    else if co2 <= 310 then High
    else VeryHigh
  }

  /** A higher intensity never yields a lower level. */
  lemma UsageLevelMonotone(a: int, b: int)
    requires a <= b
    ensures Ordinal(UsageLevelOf(a)) <= Ordinal(UsageLevelOf(b))
  {
  }

  /** `calculateChargeForecast`. The source tests its branches in order and
      the first that holds wins; the clauses below are the resulting
      partition of the (now, next, later) space. */
  function ForecastOf(d: CarbonData): (r: ChargeForecast)
    ensures !d.isValid ==> r == ChargeWhenNeeded
    ensures d.isValid ==> (r == ChargeNow <==> d.now <= d.next && d.now < d.later)
    ensures d.isValid ==> (r == ChargeIn30 <==> d.now > d.next)
    ensures d.isValid ==> (r == ChargeIn60 <==> d.now <= d.next && d.now > d.later)
    ensures d.isValid ==> (r == ChargeWhenNeeded <==> d.now <= d.next && d.now == d.later)
  {
    if !d.isValid then ChargeWhenNeeded
    else if d.now <= d.next && d.now < d.later then ChargeNow
    else if d.now > d.next then ChargeIn30
    else if d.now > d.later then ChargeIn60
    else ChargeWhenNeeded
  }

  /** Equal intensities now, next and later give no recommendation; a tie
      between now and next still recommends charging now when later is
      dearer, and a cheaper next slot wins over a dearer later one. */
  lemma ForecastExamples(from: DateTime, to: DateTime)
    ensures ForecastOf(Ok(100, 100, 100, from, to)) == ChargeWhenNeeded
    ensures ForecastOf(Ok(100, 100, 150, from, to)) == ChargeNow
    ensures ForecastOf(Ok(100, 50, 200, from, to)) == ChargeIn30
    ensures ForecastOf(Ok(100, 100, 50, from, to)) == ChargeIn60
  {
  }

  /** `isOutOfDate`: a reading may be reused only while it is valid and the
      clock has not passed its end. A valid reading with a null end is
      always out of date, as Qt orders null before every time. */
  function IsOutOfDate(d: CarbonData, clock: int): (r: bool)
    ensures !r <==> d.isValid && d.validTo.At? && clock <= d.validTo.ms
  {
    !d.isValid || After(At(clock), d.validTo)
  }

  // ---------------------------------------------------------------------
  // Change-suppressing setters
  // ---------------------------------------------------------------------

  /** `setSessionCarbon`: the field ends up holding `v` either way; the
      notification is emitted only when the value actually differs. */
  function SetSession(s: Service, v: real): (r: (Service, bool))
    ensures r.0 == s.(session := v)
    ensures r.1 <==> v != s.session
  {
    if s.session != v then (s.(session := v), true) else (s, false)
  }

  /** `setLifetimeCarbon`. */
  function SetLifetime(s: Service, v: real): (r: (Service, bool))
    ensures r.0 == s.(lifetime := v)
    ensures r.1 <==> v != s.lifetime
  {
    if s.lifetime != v then (s.(lifetime := v), true) else (s, false)
  }

  /** `setCarbonUsageLevel`. */
  function SetLevel(s: Service, v: UsageLevel): (r: (Service, bool))
    ensures r.0 == s.(level := v)
    ensures r.1 <==> v != s.level
  {
    if s.level != v then (s.(level := v), true) else (s, false)
  }

  /** `setChargeForecast`. */
  function SetForecast(s: Service, v: ChargeForecast): (r: (Service, bool))
    ensures r.0 == s.(forecast := v)
    ensures r.1 <==> v != s.forecast
  {
    if s.forecast != v then (s.(forecast := v), true) else (s, false)
  }

  // ---------------------------------------------------------------------
  // The accounting step
  // ---------------------------------------------------------------------

  /** A negative power reading is treated as no draw at all. */
  function ClampDraw(draw: real): (w: real)
    ensures w >= 0.0
    ensures draw >= 0.0 ==> w == draw
  {
    if draw < 0.0 then 0.0 else draw
  }

  function Abs(x: real): real {
    if x < 0.0 then -x else x
  }

  /** Grams of CO2 for one minute at `draw` watts and `co2` grams per kWh:
      watts to kilowatts (1000) and per-hour to per-minute (60). A negative
      product has its sign flipped rather than being discarded. */
  function Increment(draw: real, co2: int): (c: real)
    ensures c >= 0.0
    ensures c * 60000.0 == Abs(ClampDraw(draw) * co2 as real)
  {
    var carbon := (ClampDraw(draw) * co2 as real) / (60 * 1000) as real;
    if carbon < 0.0 then -carbon else carbon
  }

  /** The reading a tick works with: the cache while it is fresh, otherwise
      the provider's reply. */
  function Consulted(s: Service, env: Env): CarbonData {
    if IsOutOfDate(s.cache, env.clock) then env.reply else s.cache
  }

  /** `calculateCarbon`: one accounting tick. */
  function Tick(s: Service, env: Env): (r: Step)
    ensures !env.hasSettings || !env.hasManager ==>
      r.service == s && !r.queried && r.changes == NoChanges
    ensures env.hasSettings && env.hasManager ==>
      r.queried == IsOutOfDate(s.cache, env.clock)
    ensures env.hasSettings && env.hasManager && !Consulted(s, env).isValid ==>
      r.service == s && r.changes == NoChanges
    ensures env.hasSettings && env.hasManager && Consulted(s, env).isValid ==>
      var d := Consulted(s, env);
      var c := Increment(env.draw, d.now);
      && r.service == Service(s.session + c, s.lifetime + c, UsageLevelOf(d.now), ForecastOf(d), d)
      && (r.changes.session <==> c != 0.0)
      && (r.changes.lifetime <==> c != 0.0)
      && (r.changes.level <==> UsageLevelOf(d.now) != s.level)
      && (r.changes.forecast <==> ForecastOf(d) != s.forecast)
  {
    if !env.hasSettings || !env.hasManager then Step(s, false, NoChanges)
    else
      var queried := IsOutOfDate(s.cache, env.clock);
      var data := if queried then env.reply else s.cache;
      if !data.isValid then Step(s, queried, NoChanges)
      else
        var carbon := Increment(env.draw, data.now);
        var (s1, sessionChanged) := SetSession(s, s.session + carbon);
        var (s2, lifetimeChanged) := SetLifetime(s1, s1.lifetime + carbon);
        var (s3, levelChanged) := SetLevel(s2, UsageLevelOf(data.now));
        var (s4, forecastChanged) := SetForecast(s3, ForecastOf(data));
        Step(s4.(cache := data), queried,
             Changes(sessionChanged, lifetimeChanged, levelChanged, forecastChanged))
  }

  /** A tick never lowers either total. */
  lemma TickNeverLowersTotals(s: Service, env: Env)
    ensures Tick(s, env).service.session >= s.session
    ensures Tick(s, env).service.lifetime >= s.lifetime
  {
  }

  /** Both totals grow by the same amount in every tick. */
  lemma TickAddsSameToBoth(s: Service, env: Env)
    ensures Tick(s, env).service.session - s.session == Tick(s, env).service.lifetime - s.lifetime
  {
  }

  /** An invalid reading (or a missing collaborator) leaves every observable
      field and the cache as they were, and emits nothing. */
  lemma InvalidReadingChangesNothing(s: Service, env: Env)
    requires !env.hasSettings || !env.hasManager || !Consulted(s, env).isValid
    ensures Tick(s, env).service == s
    ensures Tick(s, env).changes == NoChanges
  {
  }

  /** The cache only ever holds a valid reading or the initial default. */
  ghost predicate CacheInvariant(s: Service) {
    s.cache.isValid || s.cache == Default()
  }

  lemma TickKeepsCacheInvariant(s: Service, env: Env)
    requires CacheInvariant(s)
    ensures CacheInvariant(Tick(s, env).service)
  {
  }

  /** Cache reuse: after a tick that fetched a valid reading, a second tick
      whose clock is still within that reading's window does not ask the
      provider again, so two such ticks cost exactly one query. */
  lemma {:induction false} SecondTickInWindowUsesCache(s: Service, env1: Env, env2: Env)
    requires env1.hasSettings && env1.hasManager && env2.hasSettings && env2.hasManager
    requires IsOutOfDate(s.cache, env1.clock)
    requires env1.reply.isValid && env1.reply.validTo.At? && env2.clock <= env1.reply.validTo.ms
    ensures Tick(s, env1).queried
    ensures !Tick(Tick(s, env1).service, env2).queried
  {
    assert Tick(s, env1).service.cache == env1.reply;
  }

  /** The state after a sequence of ticks. */
  function RunTicks(s: Service, envs: seq<Env>): Service
    decreases |envs|
  {
    if envs == [] then s else RunTicks(Tick(s, envs[0]).service, envs[1..])
  }

  /** Over any run of ticks, whatever the readings, the totals never go
      down. */
  lemma {:induction false} RunTicksMonotone(s: Service, envs: seq<Env>)
    ensures RunTicks(s, envs).session >= s.session
    ensures RunTicks(s, envs).lifetime >= s.lifetime
    decreases |envs|
  {
    if envs != [] {
      TickNeverLowersTotals(s, envs[0]);
      RunTicksMonotone(Tick(s, envs[0]).service, envs[1..]);
    }
  }

  // ---------------------------------------------------------------------
  // Reset and construction
  // ---------------------------------------------------------------------

  /** `clearStats`: both totals become exactly zero; level, forecast and
      cache are untouched. */
  function ClearStats(s: Service): (r: (Service, Changes))
    ensures r.0 == s.(session := 0.0, lifetime := 0.0)
    ensures r.1.session <==> s.session != 0.0
    ensures r.1.lifetime <==> s.lifetime != 0.0
    ensures !r.1.level && !r.1.forecast
  {
    var (s1, sessionChanged) := SetSession(s, 0.0);
    var (s2, lifetimeChanged) := SetLifetime(s1, 0.0);
    (s2, Changes(sessionChanged, lifetimeChanged, false, false))
  }

  /** After a reset, a successful tick raises both totals from zero by
      exactly the freshly computed increment. */
  lemma ResetThenTick(s: Service, env: Env)
    requires env.hasSettings && env.hasManager
    requires Consulted(ClearStats(s).0, env).isValid
    ensures Tick(ClearStats(s).0, env).service.session == Increment(env.draw, Consulted(ClearStats(s).0, env).now)
    ensures Tick(ClearStats(s).0, env).service.lifetime == Increment(env.draw, Consulted(ClearStats(s).0, env).now)
  {
  }

  /** The state the constructor builds before its first tick: lifetime is
      seeded from the settings service when there is one. */
  function Initial(lifetimeSetting: Option<real>): (s: Service)
    ensures s.session == 0.0 && s.level == VeryHigh && s.forecast == ChargeWhenNeeded
    ensures s.cache == Default()
    ensures lifetimeSetting.Some? ==> s.lifetime == lifetimeSetting.value
    ensures lifetimeSetting.None? ==> s.lifetime == 0.0
  {
    var s0 := Service(0.0, 0.0, VeryHigh, ChargeWhenNeeded, Default());
    if lifetimeSetting.Some? then SetLifetime(s0, lifetimeSetting.value).0 else s0
  }

  /** The constructor: the initial state followed immediately by one tick.
      `lifetimeSetting` is `None` when there is no settings service. As the
      cache starts out invalid, that first tick always asks the provider
      when both collaborators exist. */
  function Create(lifetimeSetting: Option<real>, hasManager: bool, clock: int, draw: real, reply: CarbonData): (r: Step)
    ensures lifetimeSetting.None? || !hasManager || !reply.isValid ==>
      r.service == Initial(lifetimeSetting)
    ensures lifetimeSetting.Some? && hasManager ==> r.queried
    ensures lifetimeSetting.Some? && hasManager && reply.isValid ==>
      && r.service.session == Increment(draw, reply.now)
      && r.service.lifetime == lifetimeSetting.value + Increment(draw, reply.now)
      && r.service.level == UsageLevelOf(reply.now)
      && r.service.forecast == ForecastOf(reply)
      && r.service.cache == reply
  {
    Tick(Initial(lifetimeSetting), Env(lifetimeSetting.Some?, hasManager, clock, draw, reply))
  }
}
