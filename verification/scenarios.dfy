/** End-to-end properties that cross components: a provider reply decoded
    by the UK plugin and a power estimate from the battery model, fed
    through one accounting tick. */
module Scenarios {
  import opened Wrappers
  import opened Json
  import opened Levels
  import opened CarbonData
  import CarbonService
  import UkUtilities
  import PowerInfoBase
  import WinPowerInfo

  /** A reply that carries data but no forecast decodes as a valid reading
      with the absent sentinel (-1) as its intensity. A tick that consults
      it classifies the grid as very low and, since the increment's sign is
      flipped, still charges the draw at 1 gram per kWh. */
  lemma ForecastlessReplyIsChargedAsOneGram(s: CarbonService.Service, clock: int, draw: real,
                                           parseDate: string -> DateTime)
    requires CarbonService.IsOutOfDate(s.cache, clock)
    ensures var reply := UkUtilities.FromByteArray(UkUtilities.Document(JObj([("from", JStr(""))])), clock, parseDate);
      var env := CarbonService.Env(true, true, clock, draw, reply);
      var step := CarbonService.Tick(s, env);
      && step.queried
      && step.service.level == VeryLow
      && (step.service.session - s.session) * 60000.0 == CarbonService.ClampDraw(draw)
  {
    var reply := UkUtilities.FromByteArray(UkUtilities.Document(JObj([("from", JStr(""))])), clock, parseDate);
    UkUtilities.ReplyWithoutForecastIsValid(clock, parseDate);
    SentinelReadingIsChargedAsOneGram(s, CarbonService.Env(true, true, clock, draw, reply));
  }

  /** The accounting half of the scenario, for any valid reading that
      carries the absent sentinel and is consulted because the cache is out
      of date. */
  lemma SentinelReadingIsChargedAsOneGram(s: CarbonService.Service, env: CarbonService.Env)
    requires env.hasSettings && env.hasManager && CarbonService.IsOutOfDate(s.cache, env.clock)
    requires env.reply.isValid && env.reply.now == -1
    ensures var step := CarbonService.Tick(s, env);
      && step.queried
      && step.service.level == VeryLow
      && (step.service.session - s.session) * 60000.0 == CarbonService.ClampDraw(env.draw)
  {
    assert CarbonService.Consulted(s, env) == env.reply;
    assert CarbonService.Increment(env.draw, -1) * 60000.0 == CarbonService.ClampDraw(env.draw);
  }

  /** When the battery query fails, the machine is taken to draw the fixed
      no-battery estimate, and a tick at intensity `co2` adds that estimate's
      share: 0.06 W for one minute. */
  lemma FailedBatteryQueryUsesEstimate(e: PowerInfoBase.Estimator, s: CarbonService.Service,
                                       clock: int, reply: CarbonData, co2: int)
    requires !CarbonService.IsOutOfDate(s.cache, clock) || reply == s.cache
    requires s.cache.isValid && s.cache.now == co2 && co2 >= 0
    ensures var draw := PowerInfoBase.PowerDrawInWatts(e, WinPowerInfo.Telemetry(None)).1;
      var step := CarbonService.Tick(s, CarbonService.Env(true, true, clock, draw, reply));
      (step.service.session - s.session) * 60000.0 == 0.06 * co2 as real
  {
    WinPowerInfo.FailedQueryReportsNoBattery(e);
  }
}
