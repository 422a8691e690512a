# Leif carbon engine — a Dafny model

Leif is a tray application. It estimates a computer's carbon footprint from two inputs: the machine's power draw, and the grid carbon intensity of its region. This project models the application's logic as pure Dafny functions over immutable datatypes, and proves properties about it.

The model covers:

- **The accounting engine** (`CarbonService`). Once a minute it does the following:
  - reads the power draw;
  - reuses the cached intensity reading until that reading expires;
  - adds `|max(draw, 0) × gCO2/kWh| / 60000` grams to the session and lifetime totals;
  - reclassifies the usage level and the charge forecast.

  The timer, clock, power draw and provider reply are parameters of `Tick`. Qt signals become one "changed" flag per field.
- **The battery model.** `PowerInfoBase` is a five-state classifier. It has per-state power formulas and a running average of the discharge rate, computed with C++ truncating division. `WinPowerInfo` holds the Windows battery-flag helpers. The operating-system query itself is an `Option<BatteryState>` input, where `None` means the query failed.
- **The reading type and the UK provider decoder.** This covers the `CarbonData` constructors and the decoding of an already-parsed JSON reply:
  - routing errors;
  - flattening nested objects into a multi-hash, using the breadth-first worklist of `flatJsonHash`;
  - the `-1` sentinels for missing forecasts.
- **Plugin metadata.** These are JSON decoders for `Translation`, `TranslatedString`, `Territory` and `CarbonPluginData`, with their filters and their first-match lookups. The system locale name is a parameter.
- **Small decisions:**
  - the tray controller's `configured()` check and its fallbacks when there is no engine;
  - the tray icon path.
- **Logging:**
  - line formatting;
  - the predictive logger's bounded buffer and timed error mode;
  - the logger registry;
  - the file filter.

Modelling choices:

- JSON is a `Json` datatype. A missing key reads as `JNull`.
- A `QDateTime` is `NullDate | At(ms)`, using Qt's ordering: a null date comes before every valid one.
- `float` values are `real`.
- A `QMultiHash` is its list of entries in insertion order. `values(key)` is most-recent-first, as Qt documents.

A machine without a battery draws 0.06 W: `powerDrawInWatts` divides every branch by 1000 (leif/powerinfobase.cpp:101). A reset reports a change only for a total that was not already zero, because each setter compares the new value with the old one (leif/services/carbonservice.cpp:186-206).

## Model

| member | source | states |
|---|---|---|
| CarbonData.Default | leif/include/carbondata.h:49-51 | The default reading is invalid. Its three intensities are -1, its error text is empty and both dates are null. |
| CarbonData.Ok | leif/include/carbondata.h:69-78 | `ok` builds a valid reading with an empty error. It stores the intensities and the window unchanged, with no range check. |
| CarbonData.Error | leif/include/carbondata.h:80-84 | `error` builds an invalid reading. Its intensities are -1 and its dates are null. The message is kept verbatim, even when empty. |
| CarbonData.OkAndErrorDiffer | leif/include/carbondata.h:53-84 | `ok` and `error` never produce the same value. An error with an empty message equals the default reading. |
| CarbonData.ZeroReadingIsValid | leif/include/carbondata.h:69-78 | Zero intensities with null dates are accepted as a valid reading. |
| CarbonService.UsageLevelOf | leif/services/carbonservice.cpp:156-184 | The level is fixed by integer bands, each stated as an if-and-only-if: ≤49 VeryLow, 50–129 Low, 130–209 Medium, 210–310 High, ≥311 VeryHigh. |
| CarbonService.UsageLevelMonotone | leif/services/carbonservice.cpp:156-184 | A higher intensity never gives a lower level. |
| CarbonService.ForecastOf | leif/services/carbonservice.cpp:244-268 | Invalid data gives ChargeWhenNeeded. For valid data each outcome is characterised by the intensities, both ways, following the order of the branches. |
| CarbonService.ForecastExamples | leif/services/carbonservice.cpp:244-268 | Equal intensities give ChargeWhenNeeded. One concrete case is shown for each other outcome. |
| CarbonService.IsOutOfDate | leif/services/carbonservice.cpp:235-241 | A reading is current exactly when it is valid, has an end date, and the clock is not past that date. |
| CarbonService.SetSession | leif/services/carbonservice.cpp:186-195 | Only the session total changes. The change is reported iff the new value differs. |
| CarbonService.SetLifetime | leif/services/carbonservice.cpp:197-206 | Only the lifetime total changes. The change is reported iff the new value differs. |
| CarbonService.SetLevel | leif/services/carbonservice.cpp:208-219 | Only the level changes. The change is reported iff the new value differs. |
| CarbonService.SetForecast | leif/services/carbonservice.cpp:221-232 | Only the forecast changes. The change is reported iff the new value differs. |
| CarbonService.ClampDraw | leif/services/carbonservice.cpp:112-117 | A negative power draw counts as zero. A non-negative draw is kept. |
| CarbonService.Increment | leif/services/carbonservice.cpp:135-145 | The per-minute increment is never negative. Its product with 60000 is the absolute value of clamped draw × intensity. |
| CarbonService.Tick | leif/services/carbonservice.cpp:94-154 | Without settings or a plugin manager, nothing happens. The provider is asked iff the cache is out of date. An invalid reading changes nothing. A valid one adds the increment to both totals and recomputes level and forecast from that reading, which becomes the cache. Each change flag is set iff its value changed. |
| CarbonService.TickNeverLowersTotals | leif/services/carbonservice.cpp:135-145 | A tick never lowers either total. |
| CarbonService.TickAddsSameToBoth | leif/services/carbonservice.cpp:135-148 | A tick adds the same amount to the session total as to the lifetime total. |
| CarbonService.InvalidReadingChangesNothing | leif/services/carbonservice.cpp:150-153 | If settings or the manager are missing, or the reading is invalid, the state is unchanged and no change is reported. |
| CarbonService.TickKeepsCacheInvariant | leif/services/carbonservice.cpp:119-148 | The cache only ever holds the default reading or a valid one. |
| CarbonService.SecondTickInWindowUsesCache | leif/services/carbonservice.cpp:119-124 | After the provider returns a valid reading, the next tick within that reading's window does not ask again. |
| CarbonService.RunTicksMonotone | leif/services/carbonservice.cpp:135-145 | Over any number of ticks, neither total ever decreases. |
| CarbonService.ClearStats | leif/services/carbonservice.cpp:88-92 | Both totals become exactly zero, and level, forecast and cache are untouched. Each total reports a change iff it was non-zero. |
| CarbonService.ResetThenTick | leif/services/carbonservice.cpp:88-92 | After a reset, one tick with a valid reading leaves each total equal to that tick's increment. |
| CarbonService.Initial | leif/services/carbonservice.cpp:30-50 | The engine starts with session 0, level VeryHigh, forecast ChargeWhenNeeded and the default cache. The lifetime total comes from the stored setting. |
| CarbonService.Create | leif/services/carbonservice.cpp:30-50 | Construction runs one tick at once. With settings, a manager and a valid reply, the reading is accounted on top of the stored lifetime total. |
| PowerInfoBase.TruncDiv | leif/powerinfobase.cpp:121-129 | C++ integer division: the remainder is smaller than the divisor and has the sign of the dividend. |
| PowerInfoBase.TruncDivDiffersFromEuclidean | leif/powerinfobase.cpp:121-129 | For negative dividends, truncating division differs from Dafny's Euclidean division. |
| PowerInfoBase.Initial | leif/powerinfobase.cpp:24-32 | The estimator starts Unknown with zero rates and capacities. The average comes from the stored setting. |
| PowerInfoBase.UpdateState | leif/powerinfobase.cpp:150-187 | The state is never Unknown afterwards. Precedence is NoBattery, then FullyCharged, then Charging, then Discharging, each stated as an iff. The charge rate is written only when Charging. The discharge rate and capacity are written only when Discharging. |
| PowerInfoBase.PowerDrawInWatts | leif/powerinfobase.cpp:60-102 | Draw per state: Discharging 0; NoBattery 0.06 W (60/1000); FullyCharged average/1000; Charging (charge rate + average)/1000. |
| PowerInfoBase.DischargingDrawsNothing | leif/powerinfobase.cpp:60-102 | A discharging machine reports zero watts, whatever its rates. |
| PowerInfoBase.Blend | leif/powerinfobase.cpp:123-130 | A zero average is replaced by the new rate. Otherwise the result is the C++ mean (average + rate) / 2, truncated toward zero: twice the result is within 1 of the sum, and the remainder has the sign of the sum. It therefore lies between the old average and the new rate. |
| PowerInfoBase.CheckLevels | leif/powerinfobase.cpp:104-145 | Average and last capacity change only when Discharging with a non-positive discharge rate. In that case the capacity is always recorded, and the average blends in the per-hour rate when a previous capacity exists. |
| PowerInfoBase.SteadyDrainKeepsAverage | leif/powerinfobase.cpp:123-130 | When the measured rate equals the average, the average is unchanged. |
| PowerInfoBase.RisingCapacityTruncatesTowardZero | leif/powerinfobase.cpp:118-130 | When capacity rises, the rate is negative, and averaging rounds toward zero: -6, not Euclidean -7. |
| WinPowerInfo.ToInt32 | leif/win/powerinfo.cpp:98-109 | A 32-bit unsigned rate returned as `int` is reinterpreted in two's complement. |
| WinPowerInfo.HasBattery | leif/win/powerinfo.cpp:18-26 | False without a battery state. Otherwise it is the battery-present flag. |
| WinPowerInfo.BatteryCharging | leif/win/powerinfo.cpp:28-36 | False without a battery state. Otherwise it is the charging flag. |
| WinPowerInfo.BatteryFullyCharged | leif/win/powerinfo.cpp:38-56 | False without a state, or off AC. On AC it holds iff the rate is known or the battery is discharging. |
| WinPowerInfo.Telemetry | leif/win/powerinfo.cpp:63-126 | A failed query reads as no battery and zero values. A successful one reports the battery-present and charging flags, `batteryFullyCharged` as the helper answers it, and `Rate` and `RemainingCapacity` reinterpreted as 32-bit `int`s. The discharge rate always equals the charge rate. |
| WinPowerInfo.FailedQueryReportsNoBattery | leif/win/powerinfo.cpp:63-73 | When the query fails, the machine is classified NoBattery and draws 0.06 W. |
| WinPowerInfo.AcWithKnownRateIsFullyCharged | leif/win/powerinfo.cpp:50-55 | On AC with a known rate, the machine is FullyCharged even while it is charging. |
| WinPowerInfo.UnknownRateIsNegative | leif/win/powerinfo.cpp:98-114 | The unknown-rate marker reaches the estimator as -2^31. |
| UkUtilities.FlattenQueue | plugins/uk/utilities.cpp:213-252 | The worklist never records an object or an array value. |
| UkUtilities.FlattenQueueCollectsScalars | plugins/uk/utilities.cpp:218-249 | The breadth-first worklist collects, as a multiset, exactly the scalars of a depth-first reference definition. |
| UkUtilities.FlatJsonHashCollectsScalars | plugins/uk/utilities.cpp:213-252 | `flatJsonHash` holds every scalar reachable through objects, or through objects inside arrays, under its own key. |
| UkUtilities.ArraysKeepOnlyTheirObjects | plugins/uk/utilities.cpp:234-243 | Scalars directly inside arrays, and arrays nested in arrays, are dropped. An object inside an array is kept. |
| UkUtilities.Values | plugins/uk/utilities.cpp:172-172 | Exactly one value per entry with the key, newest first: the i-th value is the value of the i-th newest such entry. Every value is stored under the key, and there are none iff no entry has it. |
| UkUtilities.ValuesOfNewEntry | plugins/uk/utilities.cpp:172-172 | Inserting an entry puts its value at the front of its own key's values and leaves every other key's values unchanged. |
| UkUtilities.ValueOr | plugins/uk/utilities.cpp:174-175 | With no entry for the key, the default is returned. Otherwise the result is the most recently inserted value under the key, the first of `Values`. |
| UkUtilities.VariantToInt | plugins/uk/utilities.cpp:180-193 | A number gives its value, a boolean 1 or 0, and a string its parsed value when that fits in 32 bits, otherwise 0. Null, arrays and objects give 0. |
| UkUtilities.NumberAndTextAgree | plugins/uk/utilities.cpp:180-193 | A 32-bit number reads the same whether the reply sends it as a JSON number or as its decimal text. |
| UkUtilities.FieldText | plugins/uk/utilities.cpp:140-141 | The code and message of an error hash: the fallback ("unknown", "none") when the key has no entry, otherwise the text of the most recently inserted value under that key. |
| UkUtilities.FromApiError | plugins/uk/utilities.cpp:133-147 | The result is always invalid. An empty hash gives the unspecified-error text. Otherwise the text embeds the message and the code. |
| UkUtilities.ForecastAt | plugins/uk/utilities.cpp:176-193 | A missing forecast position reads as -1. A present one is its integer value. |
| UkUtilities.ReplyDate | plugins/uk/utilities.cpp:195-197 | An empty date field means "now". Any other text is handed to the date parser, and its result is the date. |
| UkUtilities.FromApiResponse | plugins/uk/utilities.cpp:165-200 | The result is invalid iff the hash is empty. now, next and later are the first three forecast values, each -1 when absent. validFrom and validTo are the reply dates of the newest "from" and "to" texts. A reply without dates uses the current time for both. |
| UkUtilities.ParseErrorMessage | plugins/uk/utilities.cpp:99-102 | The parse-error message begins "The supplied data(", followed by the raw reply text. Next comes ") seems not to be a valid JSON text. Error: " and the parser's description. It ends in ".". Each piece can be read back at the offset the earlier pieces' lengths give. |
| UkUtilities.FromByteArray | plugins/uk/utilities.cpp:87-122 | Empty, unparsable and non-object replies are invalid. An empty reply reads "Empty reply received.". An unparsable one carries the parse-error message, and a non-object reads "Empty or invalid JSON received by API.". Every object, including `{}`, is flattened. A top-level "error" key routes to `fromApiError`, and any other object routes to `fromApiResponse`. The result is valid iff an error-free object flattens to a non-empty hash. |
| UkUtilities.EmptyObjectIsCorrupt | plugins/uk/utilities.cpp:104-122 | `{}` is an object, so it passes the document check. It has no "error" key and flattens to an empty hash, which `fromApiResponse` rejects as "Response data seems corrupt.". |
| UkUtilities.EmptyObjectsAreInvalid | plugins/uk/utilities.cpp:104-122 | `{}` passes the document check, flattens to an empty hash and is rejected as corrupt. So is an object holding only an empty object. |
| UkUtilities.ReplyWithoutForecastIsValid | plugins/uk/utilities.cpp:165-200 | A reply with data but no forecast is still valid, with all three intensities at -1. |
| Scenarios.ForecastlessReplyIsChargedAsOneGram | plugins/uk/utilities.cpp:172-199 | A forecast-less reply makes the engine report VeryLow. Because of the sign flip, the engine still charges the draw at 1 g/kWh. |
| Scenarios.SentinelReadingIsChargedAsOneGram | leif/services/carbonservice.cpp:135-184 | A consulted valid reading whose intensity is the absent sentinel -1 gives the level VeryLow. The absolute value in the increment turns the -1 into a charge of the clamped draw at 1 g/kWh. |
| Scenarios.FailedBatteryQueryUsesEstimate | leif/powerinfobase.cpp:212-218 | When the battery query fails, a tick charges 0.06 W × intensity / 60000 grams. |
| Translations.Default | leif/utils/translation.cpp:18-20 | The default translation is empty and carries the unspecified locale. |
| Translations.SetString | leif/utils/translation.cpp:83-86 | Only the string changes. The result is empty iff the new string is. |
| Translations.SetLocale | leif/utils/translation.cpp:93-96 | Only the locale changes. Emptiness is preserved. |
| Translations.FromJson | leif/utils/translation.cpp:98-107 | A non-object gives the default. Otherwise the text is the "string" member and the locale name is the "locale" member, each read as "" unless it is a JSON string. The result is non-empty iff "string" is a non-empty JSON string. |
| Translations.FromJsonInvertsToJson | leif/utils/translation.cpp:98-107 | Reading back a translation's JSON form gives the same translation. |
| Translations.FromJsonItems | leif/utils/translation.cpp:109-126 | No empty translation is kept. Every element that decodes as non-empty is kept. The result is never longer than the input. |
| Translations.FromJsonItemsIsFilteredDecode | leif/utils/translation.cpp:109-126 | The list decoder is a transform followed by a filter: every element is decoded, empty translations are dropped, and the rest keep their order and multiplicity. |
| Translations.FromJsonArray | leif/utils/translation.cpp:109-126 | A non-array gives nothing. An array gives its decoded elements, empty ones dropped, in array order. |
| Translations.FromJsonArrayInvertsToJson | leif/utils/translation.cpp:109-126 | Writing non-empty translations to an array and reading them back gives the same list, in order. |
| Translations.EmptyEntriesAreDropped | leif/utils/translation.cpp:117-121 | Empty elements are dropped without disturbing the others. |
| TranslatedStrings.Default | leif/utils/translatedstring.cpp:61-64 | The default translated string is empty. |
| TranslatedStrings.Translate | leif/utils/translatedstring.cpp:108-125 | The result is empty iff no translation is non-empty with the system locale name. Otherwise it is the first such translation's string. |
| TranslatedStrings.Make | leif/utils/translatedstring.cpp:47-49 | The id is kept. The translation is the text of the first translation that fits the system locale, as characterised by `Translate`. It is empty iff nothing fits. |
| TranslatedStrings.TranslatedId | leif/utils/translatedstring.cpp:89-95 | Empty whenever the id is empty. Otherwise it is the translation chosen at construction. |
| TranslatedStrings.FromJson | leif/utils/translatedstring.cpp:148-163 | A non-object gives the default. The id comes from "id". Translations are read only when a "translations" key is present. |
| TranslatedStrings.FromJsonInvertsToJson | leif/utils/translatedstring.cpp:148-163 | Reading back the JSON form gives what the constructor builds. |
| TranslatedStrings.FromJsonItems | leif/utils/translatedstring.cpp:198-221 | No empty id is kept. Every element with a non-empty id is kept. |
| TranslatedStrings.FromJsonItemsIsFilteredDecode | leif/utils/translatedstring.cpp:198-221 | The list decoder is a transform followed by a filter: every element is decoded, strings without an id are dropped, and the rest keep their order and multiplicity. |
| TranslatedStrings.FromJsonArray | leif/utils/translatedstring.cpp:198-221 | A non-array gives nothing. An array gives its decoded elements, those without an id dropped, in array order. |
| TranslatedStrings.FirstFittingTranslationWins | leif/utils/translatedstring.cpp:121-124 | Of two fitting translations the earlier wins. A non-fitting one is passed over. |
| TranslatedStrings.UnmatchedLocaleLeavesTranslationEmpty | leif/utils/translatedstring.cpp:47-49 | With no translation in the system locale, even an empty list, the translated id is empty. |
| Territories.Default | leif/utils/territory.cpp:23-25 | The default territory is the unspecified country, with no description and no regions. It is invalid. |
| Territories.FromJson | leif/utils/territory.cpp:143-158 | A non-object, or an object without "territory", gives the default even if other fields are present. Otherwise description and regions come from their fields, and the code is the 32-bit "territory" value cast to the 16-bit country enumeration, so it lies in 0..65535. The result is valid iff "territory" is a 32-bit number that is not a multiple of 65536. |
| Territories.FromJsonInvertsToJson | leif/utils/territory.cpp:143-158 | For every code in 0..65535, reading back a territory's JSON form gives the same code and description. |
| Territories.CodesWrapToSixteenBits | leif/utils/territory.cpp:153-153 | Code 65536 becomes the unspecified country and is invalid, and -1 becomes 65535. |
| Territories.FromJsonItems | leif/utils/territory.cpp:171-195 | Only valid territories are kept, and the list is never longer than the input. |
| Territories.ValidItemsAreKept | leif/utils/territory.cpp:171-195 | Every element that decodes to a valid territory appears in the result. |
| Territories.FromJsonItemsIsFilteredDecode | leif/utils/territory.cpp:171-195 | The list decoder is a transform followed by a filter: every element is decoded, invalid territories are dropped, and the rest keep their order and multiplicity. |
| Territories.FromJsonArray | leif/utils/territory.cpp:171-195 | A non-array gives nothing. An array gives its decoded elements, invalid ones dropped, in array order. |
| Territories.UnusableTerritoriesAreDropped | leif/utils/territory.cpp:171-195 | Entries with no code, code 0 or a non-numeric code are all dropped. |
| PluginData.Default | leif/utils/carbonplugindata.cpp:238-241 | The default plugin data has no name, no description and no territories. |
| PluginData.TerritoryList | leif/utils/carbonplugindata.cpp:98-110 | The codes of the territories, with the same length and order. |
| PluginData.IsValid | leif/utils/carbonplugindata.cpp:43-46 | Valid iff the plugin has a name and at least one territory. |
| PluginData.Regions | leif/utils/carbonplugindata.cpp:146-160 | The regions of the first valid territory with that code. Empty when there is none. |
| PluginData.RegionIds | leif/utils/carbonplugindata.cpp:172-185 | The ids of those regions, with the same length and order. |
| PluginData.DisplayText | leif/utils/carbonplugindata.cpp:217-217 | A region's translated id, or its id when the translation is empty. |
| PluginData.TranslatedRegionId | leif/utils/carbonplugindata.cpp:204-220 | The display text of the first region with that id. Empty when there is none. |
| PluginData.ListedRegionHasDisplayText | leif/utils/carbonplugindata.cpp:204-220 | Every non-empty id that `regionIds` lists has a non-empty display text. |
| PluginData.AnyCountryHasNoRegions | leif/utils/carbonplugindata.cpp:146-160 | The unspecified country never has regions or region ids. |
| PluginData.FromJson | leif/utils/carbonplugindata.cpp:238-250 | A non-object gives the default. Otherwise name, description and the valid territories are read from their fields. |
| PluginData.DecodedTerritoriesAreFound | leif/utils/carbonplugindata.cpp:146-160 | For every territory a decoded plugin lists, the lookup by its code finds an entry at or before it with that code. |
| TrayIconController.SessionCarbon | leif/controllers/trayiconcontroller.cpp:78-86 | 0 without an engine. Otherwise the engine's session total. |
| TrayIconController.LifetimeCarbon | leif/controllers/trayiconcontroller.cpp:88-96 | 0 without an engine. Otherwise the engine's lifetime total. |
| TrayIconController.CarbonUsageLevel | leif/controllers/trayiconcontroller.cpp:98-106 | VeryHigh without an engine. Otherwise the engine's level. |
| TrayIconController.ChargeForecastOf | leif/controllers/trayiconcontroller.cpp:108-116 | ChargeWhenNeeded without an engine. Otherwise the engine's forecast. |
| TrayIconController.ResetStats | leif/controllers/trayiconcontroller.cpp:118-126 | Does nothing without an engine. Otherwise it clears the engine's totals. |
| TrayIconController.ResetZeroesTotals | leif/controllers/trayiconcontroller.cpp:118-126 | After a reset both totals read 0, and level and forecast read as before. |
| TrayIconController.Configured | leif/controllers/trayiconcontroller.cpp:161-179 | False without settings, for the unspecified country, or without a manager. True for a country without regions. Otherwise it holds iff a region is chosen. |
| TrayIconController.ConfiguredByPluginChoice | leif/controllers/trayiconcontroller.cpp:161-179 | With a plugin as the manager, a particular country is configured iff a region is chosen or the plugin lists no regions for it. The chosen region is not checked against the plugin's list. |
| TrayIconController.AnyCountryIsNotConfigured | leif/controllers/trayiconcontroller.cpp:168-169 | The unspecified country is never configured. |
| TrayIcon.FaceFor | leif/trayicon.cpp:286-312 | Levels 0 to 4 show veryhappy, happy, fair, sad and verysad. Any out-of-range value also shows verysad. |
| TrayIcon.IconName | leif/trayicon.cpp:329-341 | The path is ":/img/tray/", then "light/" in contrast mode or "dark/" otherwise, then the level's face, then ".svg", with nothing else added. |
| TrayIcon.IconNameDeterminesLevel | leif/trayicon.cpp:286-341 | Different levels, and the two themes, never share an icon path. |
| TrayIcon.InitialIconIsVeryHigh | leif/trayicon.cpp:11-12 | The initial icon is the VeryHigh face, the same one an out-of-range level shows. |
| LoggerBase.TypeToString | leif/log/loggerbase.cpp:62-86 | Information, Warning, Error and Debug map to INF, WRN, ERR and DBG, each stated as an iff. Every tag has three letters. |
| LoggerBase.TypeOfTag | leif/log/loggerbase.cpp:62-86 | A tag read back gives a type whose tag it is. |
| LoggerBase.TagRoundTrip | leif/log/loggerbase.cpp:62-86 | Every tag reads back as its own type, so no two types share a tag. |
| LoggerBase.FilePart | leif/log/loggerbase.cpp:32-53 | The file part is always a suffix of the path. With a backslash, it starts at the last backslash, inclusive, and holds no other backslash. Without one, it is the last 30 characters, or the whole path if shorter. |
| LoggerBase.Location | leif/log/loggerbase.cpp:32-53 | The location is the file part, ":", the line number in decimal, "/" and the method name. |
| LoggerBase.LineNumberIsReadable | leif/log/loggerbase.cpp:48-50 | A location starts with the file part and a colon and ends with a slash and the method name. The text in between parses back to the line number. |
| LoggerBase.MakeMessage | leif/log/loggerbase.cpp:16-30 | The line is the timestamp, " [", the type tag, "] (", the location, ") - " and the message. |
| LoggerBase.LogMessage | leif/log/loggerbase.cpp:5-14 | One call hands exactly one line, the formatted message, to the sink. |
| LoggerBase.LocationIsReadable | leif/log/loggerbase.cpp:22-29 | The location can be cut back out of a line: it lies between the "] (" after the tag and the ") - " that precedes the message at the end. |
| LoggerBase.MessageTypeIsReadable | leif/log/loggerbase.cpp:16-30 | A line starts with the timestamp and " [", and the tag after them reads back as the message type. |
| LoggerBase.LocationExamples | leif/log/loggerbase.cpp:32-53 | A Windows path keeps its last component together with the separator. A short '/'-separated path is kept whole. |
| PredictiveLogger.Init | leif/log/predictivelogger.cpp:17-23 | The logger starts outside error mode with an empty buffer. |
| PredictiveLogger.StoreMessage | leif/log/predictivelogger.cpp:95-105 | The buffer becomes the most recent 100 of the old lines plus the new one. Error mode is untouched. |
| PredictiveLogger.StoreAllKeepsMostRecent | leif/log/predictivelogger.cpp:95-105 | After any number of stores, the buffer is exactly the last 100 lines, in order. |
| PredictiveLogger.OnError | leif/log/predictivelogger.cpp:50-58 | Error mode begins and lasts until now + 300000 ms. The buffer is written out oldest first and then emptied. |
| PredictiveLogger.CheckErrorMode | leif/log/predictivelogger.cpp:67-80 | Error mode continues iff its deadline is after now. The check never enters error mode. |
| PredictiveLogger.LogMessage | leif/log/predictivelogger.cpp:31-48 | In a live error mode the line is written at once and nothing else changes. Otherwise it is buffered and nothing is written. |
| PredictiveLogger.QuietWithoutError | leif/log/predictivelogger.cpp:31-48 | Without an error, no sequence of calls writes anything, and the buffer stays within 100 lines. |
| PredictiveLogger.ErrorModeWindow | leif/log/predictivelogger.cpp:50-80 | After an error, lines logged within five minutes go straight out. Lines logged at or after the deadline are buffered. |
| LogManager.RegisterLogger | leif/log/logmanager.cpp:44-52 | An already registered logger changes nothing. A new one is appended at the end. The list never gains a duplicate. |
| LogManager.RegisterAllIsASet | leif/log/logmanager.cpp:44-52 | After any registrations, the list holds each registered logger exactly once, and earlier registrations keep their order. |
| LogManager.LogMessage | leif/log/logmanager.cpp:31-42 | Each registered logger receives the call, in registration order. |
| LogManager.DeliveredOnce | leif/log/logmanager.cpp:31-52 | A logger registered through `registerLogger` receives each call exactly once. |
| LogFilter.FilterLog | leif/log/logfilterbase.cpp:13-25 | The call is forwarded unchanged, once, iff there is an inner logger and the test accepts it. Otherwise it is dropped. |
| LogFilter.CanLogByFile | leif/log/logfilterbyfile.cpp:8-20 | A call is accepted iff its file path contains the filter's file name. |
| LogFilter.LogByFile | leif/log/logfilterbyfile.cpp:8-20 | The file filter forwards iff it has an inner logger and the path contains the name. What it forwards is the same call, once, to that inner logger. |
| LogFilter.FileFilterIgnoresTheRest | leif/log/logfilterbyfile.cpp:14-17 | Method, line, type and message play no part in the decision. |
| LogFilter.FileFilterExtremes | leif/log/logfilterbyfile.cpp:19-19 | An empty file name accepts everything. A name longer than the path accepts nothing. |

## Left out

- Timers, Qt signal emission, persistence through `QSettings`, and plugin loading are left out. The clock, the power draw, the provider reply, the stored lifetime total and the stored average are parameters. Signals are change flags.
- The network request, `awaitSignal`, and the JSON text parser are left out. `FromByteArray` receives the parser's outcome: empty, unparsable with its error details, or a parsed tree.
- Date parsing and formatting are left out: `parseDate` and the log timestamp are parameters.
- Locale names are taken verbatim. `QLocale`'s normalisation of names is not modelled, and neither is the name of the unspecified locale: a translation with the unspecified locale never matches.
- `territoryNames` is not modelled. It needs Qt's country-name table.
- Only the Windows battery back end is modelled. The macOS back end and the `CallNtPowerInformation` call are left out; the call is an `Option<BatteryState>` input.
- IEEE `float` rounding is not modelled; carbon and watt values are exact `real`s.
- Integer overflow of `(last - current) * 60`, of the charge-rate sum and of the running-average sum `average + rate` (leif/powerinfobase.cpp:129) is not modelled; these are unbounded `int`s.
- WinPowerInfo.Telemetry: one battery state answers all six queries. The code makes a separate operating-system call for each accessor (leif/win/powerinfo.cpp:18-126), so the answers could come from different moments.
- UkUtilities.FromByteArray: `QJsonDocument::isEmpty` is taken to hold only for a document without data, as Qt's implementation reads. A successful parse never produces such a document, so the empty-document test at plugins/uk/utilities.cpp:105 is modelled as never firing.
- UkUtilities.VariantToInt: a JSON number outside the 32-bit range is returned unchanged. The code stores the result of Qt's double-to-int conversion in an `int`, and that conversion is Qt's, not part of this model.
- UkUtilities.VariantToInt and Json.AsInt: only integral JSON numbers exist in the model, so a fractional number is not represented. Leading and trailing blanks in numeric strings are not accepted.
- Territories.FromJson: the 16-bit width of `QLocale::Country` comes from Qt's header, which is not part of this model.
- `UkUtilities.ParseErrorMessage`: the source fills the message with chained `QString::arg` calls. If the raw reply text itself contains `%n` markers, they could be substituted too. The model inserts the text verbatim.
- `UkUtilities.Values`: the most-recent-first order of `QMultiHash::values` is taken from Qt's documentation, and so is the choice of the most recent value by `QMultiHash::value` (`UkUtilities.ValueOr`). Properties are stated relative to the list the code receives.
- An object's members are assumed to be in key order, as `QVariantMap` iterates them. Duplicate keys inside one object are not considered.
- Only `usageLevelToIconName` is modelled from the tray icon. Menus, message boxes, translated labels and the contrast-mode query are GUI code.
- Logging sinks, the log system singleton and the QML warning logger are I/O. A logger's output is the list of lines it writes. Loggers in the registry are identified by address, modelled as `nat`.
- `LogManager.LogMessage` models the five-argument call declared in leif/log/ilogger.h:16-20. leif/log/logmanager.cpp:31-42 passes four arguments.
- `PredictiveLogger.OnError` is private. It is modelled anyway, so error mode can be reasoned about.
- The superseded `CarbonProcessor`, the list models, the legacy tray model, and the settings and carbon controllers are not part of this model. The one exception: the tray icon's level values are taken from leif/carbonprocessor.h:18.
