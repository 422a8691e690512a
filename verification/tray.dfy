/** `TrayIconController`: the façade the tray icon and the dialog read.
    Every getter falls back to a fixed value while no carbon engine exists. */
module TrayIconController {
  import opened Wrappers
  import opened Levels
  import CarbonService
  import Territories
  import PluginData

  type Service = CarbonService.Service

  function SessionCarbon(engine: Option<Service>): (r: real)
    ensures engine.None? ==> r == 0.0
    ensures engine.Some? ==> r == engine.value.session
  {
    match engine
    case None => 0.0
    case Some(s) => s.session
  }

  function LifetimeCarbon(engine: Option<Service>): (r: real)
    ensures engine.None? ==> r == 0.0
    ensures engine.Some? ==> r == engine.value.lifetime
  {
    match engine
    case None => 0.0
    case Some(s) => s.lifetime
  }

  /** Without an engine the level reads as the most intense one. */
  function CarbonUsageLevel(engine: Option<Service>): (r: UsageLevel)
    ensures engine.None? ==> r == VeryHigh
    ensures engine.Some? ==> r == engine.value.level
  {
    match engine
    case None => VeryHigh
    case Some(s) => s.level
  }

  /** Without an engine the advice is to charge only when needed. */
  function ChargeForecastOf(engine: Option<Service>): (r: ChargeForecast)
    ensures engine.None? ==> r == ChargeWhenNeeded
    ensures engine.Some? ==> r == engine.value.forecast
  {
    match engine
    case None => ChargeWhenNeeded
    case Some(s) => s.forecast
  }

  /** `resetStats`: clears the engine's totals, or does nothing without one. */
  function ResetStats(engine: Option<Service>): (r: Option<Service>)
    ensures engine.None? ==> r.None?
    ensures engine.Some? ==> r == Some(CarbonService.ClearStats(engine.value).0)
  {
    match engine
    case None => None
    case Some(s) => Some(CarbonService.ClearStats(s).0)
  }

  /** After a reset both totals read as zero, whether or not an engine
      exists, and the level and forecast read as before. */
  lemma ResetZeroesTotals(engine: Option<Service>)
    ensures SessionCarbon(ResetStats(engine)) == 0.0
    ensures LifetimeCarbon(ResetStats(engine)) == 0.0
    ensures CarbonUsageLevel(ResetStats(engine)) == CarbonUsageLevel(engine)
    ensures ChargeForecastOf(ResetStats(engine)) == ChargeForecastOf(engine)
  {
  }

  /** The stored choice of country and region. */
  datatype Settings = Settings(country: int, regionId: string)

  /** `configured`: a settings service exists, a particular country is
      chosen, a plugin manager exists, and either that country has no
      regions or a region is chosen. The manager is represented by its
      region-id lookup. */
  function Configured(settings: Option<Settings>, regionIds: Option<int -> seq<string>>): (r: bool)
    ensures settings.None? || regionIds.None? ==> !r
    ensures settings.Some? && settings.value.country == Territories.AnyCountry ==> !r
    ensures r <==>
      && settings.Some? && settings.value.country != Territories.AnyCountry && regionIds.Some?
      && (regionIds.value(settings.value.country) == [] || settings.value.regionId != "")
  {
    if settings.None? then false
    else if settings.value.country == Territories.AnyCountry then false
    else if regionIds.None? then false
    else if regionIds.value(settings.value.country) == [] then true
    else settings.value.regionId != ""
  }

  /** With a plugin loaded as the manager, a particular country is fully
      configured exactly when a region is chosen or the plugin lists no
      regions for it. The chosen region is not checked against the list. */
  lemma ConfiguredByPluginChoice(p: PluginData.CarbonPluginData, settings: Settings)
    requires settings.country != Territories.AnyCountry
    ensures Configured(Some(settings), Some((c: int) => PluginData.RegionIds(p, c)))
        <==> settings.regionId != "" || PluginData.RegionIds(p, settings.country) == []
  {
  }

  /** Choosing the unspecified country is never a complete configuration. */
  lemma AnyCountryIsNotConfigured(regionId: string, regionIds: Option<int -> seq<string>>)
    ensures !Configured(Some(Settings(Territories.AnyCountry, regionId)), regionIds)
  {
  }
}

/** The tray icon's image choice. */
module TrayIcon {
  import opened Levels

  /** The picture for each `CarbonProcessor::CarbonUsageLevel` value; any
      other value shows the saddest face. */
  function FaceFor(levelCode: int): (r: string)
    ensures |r| >= 3
    ensures levelCode == 4 ==> r == "verysad"
    ensures levelCode == 3 ==> r == "sad"
    ensures levelCode == 2 ==> r == "fair"
    ensures levelCode == 1 ==> r == "happy"
    ensures levelCode == 0 ==> r == "veryhappy"
    ensures !(0 <= levelCode <= 4) ==> r == "verysad"
  {
    if levelCode == 4 then "verysad"
    else if levelCode == 3 then "sad"
    else if levelCode == 2 then "fair"
    else if levelCode == 1 then "happy"
    else if levelCode == 0 then "veryhappy"
    else "verysad"
  }

  function ThemeDir(contrastMode: bool): string {
    if contrastMode then "light/" else "dark/"
  }

  /** `usageLevelToIconName`: the resource path of the face for a level, in
      the light set for contrast mode and the dark set otherwise. */
  function IconName(levelCode: int, contrastMode: bool): (r: string)
    ensures r == ":/img/tray/" + ThemeDir(contrastMode) + FaceFor(levelCode) + ".svg"
    ensures |r| > 20 && r[..11] == ":/img/tray/" && r[|r| - 4..] == ".svg"
    ensures contrastMode ==> r[11..17] == "light/"
    ensures !contrastMode ==> r[11..16] == "dark/"
  {
    var dir := ThemeDir(contrastMode);
    var face := FaceFor(levelCode);
    var withDir := ":/img/tray/" + dir;
    var withFace := withDir + face;
    var r := withFace + ".svg";
    assert r[..|withFace|] == withFace && r[|withFace|..] == ".svg";
    assert withFace[..|withDir|] == withDir;
    assert r[..11] == withDir[..11] == ":/img/tray/";
    assert r[11..11 + |dir|] == withDir[11..] == dir;
    r
  }

  /** Icon name for a usage level of the engine (the two level enums agree
      value for value). */
  function IconFor(level: UsageLevel, contrastMode: bool): string {
    IconName(Ordinal(level), contrastMode)
  }

  /** Distinct levels, and the two themes, never share an icon: the icon
      alone tells the level and the theme. */
  lemma IconNameDeterminesLevel(a: UsageLevel, b: UsageLevel, ca: bool, cb: bool)
    requires IconFor(a, ca) == IconFor(b, cb)
    ensures a == b && ca == cb
  {
    var x := IconFor(a, ca);
    var y := IconFor(b, cb);
    assert ca == cb by {
      assert x[11] == y[11];
    }
    var pre := |":/img/tray/" + ThemeDir(ca)|;
    assert x[pre..|x| - 4] == FaceFor(Ordinal(a));
    assert y[pre..|y| - 4] == FaceFor(Ordinal(b));
    assert FaceFor(Ordinal(a)) == FaceFor(Ordinal(b));
  }

  /** Before the first reading the icon is the very-high face, and an
      out-of-range level shows the same. */
  lemma InitialIconIsVeryHigh(contrastMode: bool, code: int)
    requires code < 0 || code > 4
    ensures IconFor(VeryHigh, contrastMode) == IconName(code, contrastMode)
  {
    assert FaceFor(Ordinal(VeryHigh)) == FaceFor(code);
  }
}
