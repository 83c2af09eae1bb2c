# Bio-age scoring, latest readings, HealthKit sync and onboarding, in Dafny

This project models the core of the bio-age app, a health-tracking service. It has
four parts.

- **The scoring engine** is module `BioAge` (`bioage.dfy`). It holds the metric table
  (optimal range, maximum impact and direction per metric key), the per-reading scorer
  `computeMetricImpact` and the aggregator `calculateBioAge`. The aggregator groups the
  scored readings by category, rounds the category impacts to tenths, and derives a
  biological age and a pace of aging. It also holds the category and metric labels, the
  key list and the category list. The aggregator is an imperative method
  (`CalculateBioAge`, built from `GroupReadings`, `AddReading` and `RoundCategories`),
  proved equal to the specification function `BioAgeOf`. The properties are proved as
  lemmas about `BioAgeOf`.
- **The storage layer's latest-reading filter** is module `Storage` (`storage.dfy`).
  It models the loop of `getLatestMetrics` that keeps the first reading of each metric
  key from a newest-first query result.
- **The client-side HealthKit sync** is module `HealthKit` (`healthkit.dfy`). It turns
  what each HealthKit query answered into at most six uploaded metrics: means of the
  resting heart rate, HRV and walking-speed samples, the first VO2-max sample, and the
  per-night sleep figures.
- **The onboarding screen** is module `Onboarding` (`onboarding.dfy`). It covers how a
  failed request becomes the message shown, when each of the four steps lets the user
  continue, the Continue button and `handleNext` as a class over the screen's state,
  the fallback to sample metrics when the sync returns nothing, and the registration
  body with its numeric fallbacks.

Supporting modules:

- `Rounding` is `Math.round(x * k) / k` over exact reals.
- `Grouping` holds first-seen order, key selection and left-to-right sums.
- `JsText` covers `trim`, `trimStart`, `includes`, `startsWith` and `toLowerCase`.
- `Schema` is the stored reading.
- `Wrappers` holds `Option` and `Result`.
- `PrototypeLookup` (`prototype.dfy`) models the metric-table lookup as JavaScript
  performs it, inherited `Object.prototype` members included. See "## Findings".

Numbers are exact reals (`real`), not IEEE doubles. The clock (`Date.now()`), the
database query, the native HealthKit module and the network are all inputs to the
model.

## Model

| member | source | states |
|---|---|---|
| BioAge.TableWellFormed | server/bioage.ts:17-27 | every table entry has 0 < low < high and a positive maximum impact, so the scorer never divides by zero |
| BioAge.MetricKeysListed | server/bioage.ts:112 | the key list holds no key twice and holds exactly the keys of the table |
| BioAge.Categories | server/bioage.ts:113 | the category list has no duplicates, contains the category of every table entry, and every listed category has a label |
| BioAge.KeyOrderCategories | server/bioage.ts:17-27 | the table's categories, taken in key order, are cardiovascular twice, recovery, sleep twice, activity twice, body_composition twice |
| BioAge.CategoriesAreFirstSeen | server/bioage.ts:113 | the category list is the table's categories in key order with later duplicates dropped, which is what `new Set` keeps |
| BioAge.CategoryLabel | server/bioage.ts:97-106 | a labelled category yields its label; any other category yields itself; the result is empty only for the empty category |
| BioAge.MetricLabel | server/bioage.ts:108-110 | a configured key yields its display name; any other key yields itself; the result is empty only for the empty key |
| BioAge.InRangeScore | server/bioage.ts:36-41 | inside the optimal range the score lies between -maxImpact and -0.7 * maxImpact, and is exactly -maxImpact at the midpoint |
| BioAge.Penalty | server/bioage.ts:45-46 | a value on the wrong side of the range costs more than 0 and at most maxImpact years |
| BioAge.ScoreAgainst | server/bioage.ts:35-51 | the score is within plus or minus maxImpact; in range it is in [-maxImpact, -0.7 * maxImpact]; below range with lower-is-better it is -maxImpact; above range with higher-is-better it is -maxImpact/2; on the wrong side it is a positive penalty |
| BioAge.ComputeMetricImpact | server/bioage.ts:31-52 | an unconfigured key scores 0; a configured key is scored against its own entry and never moves the estimate by more than that entry's maxImpact |
| BioAge.IsFresh | server/bioage.ts:62-63 | a reading is fresh exactly when it is less than 48 hours older than `now` |
| BioAge.Scored | server/bioage.ts:61-76 | a known reading is listed under its key with its value, the unit from its table entry, an impact in whole tenths within 0.05 of its unrounded impact, `fresh` exactly when under 48 hours old, and `isOverride` true exactly when the reading says true (a missing flag gives false); `CategoriesListed` states which readings are listed where |
| BioAge.Known | server/bioage.ts:58-59 | the readings kept by the first loop are exactly those with a configured key |
| BioAge.Add | server/bioage.ts:65-77 | adding a reading keeps the category keys distinct and in step with the map, and appends the category to the key order only when it is new |
| BioAge.Build | server/bioage.ts:57-78 | the keyed object built by the first loop always has distinct keys matching its insertion order |
| BioAge.Grouped | server/bioage.ts:57-78 | the grouped categories after the first loop form a well-formed keyed object |
| BioAge.RoundAll | server/bioage.ts:80-82 | the rounding loop keeps the number and order of the categories and rounds each one's impact |
| BioAge.AddReading | server/bioage.ts:58-77 | one pass of the first loop over a configured reading yields the map and key order that the specification `Add` gives |
| BioAge.GroupReadings | server/bioage.ts:55-78 | the first loop's category map and key order are those of the specification `Grouped` |
| BioAge.RoundCategories | server/bioage.ts:80-82 | the rounding loop followed by `Object.values` yields the rounded categories in key order |
| BioAge.CalculateBioAge | server/bioage.ts:54-95 | the method returns exactly the specification result `BioAgeOf` |
| BioAge.BioAgeOf | server/bioage.ts:54-95 | the specification of `calculateBioAge`; it keeps the chronological age, and its meaning is stated by `Totals`, `CategoriesListed`, `SummaryOfNone`, `NoKnownReadings` and `UnknownReadingsIgnored` |
| BioAge.EntriesOfKnown | server/bioage.ts:58-76 | there is exactly one listed entry per configured reading, in input order |
| BioAge.BuildOrder | server/bioage.ts:65-67 | categories come in the order of their first configured reading, each once |
| BioAge.AddLists | server/bioage.ts:65-77 | adding one reading keeps every category listing exactly its own readings, with its impact their sum |
| BioAge.BuildEntries | server/bioage.ts:57-78 | after the first loop each category lists exactly its own readings in input order, is non-empty, and carries the sum of their unrounded impacts; a category with no readings is absent |
| BioAge.ValuesUpdate | server/bioage.ts:69-77 | updating an existing category replaces it in `Object.values` at its own position |
| BioAge.ValuesNew | server/bioage.ts:65-67 | a new category is listed last in `Object.values` |
| BioAge.AddTotal | server/bioage.ts:77 | each reading adds its impact to the sum over the categories |
| BioAge.BuildTotal | server/bioage.ts:57-78 | before rounding, the category impacts add up to the impacts of all configured readings |
| BioAge.CategoriesListed | server/bioage.ts:54-95 | the result lists each category of a configured reading once, in first-seen order; each lists exactly its readings in input order, and its impact is their summed impact rounded to 0.1 |
| BioAge.RoundAllDrift | server/bioage.ts:80-84 | rounding the categories one by one leaves a sum of whole tenths, within 0.05 per category of the unrounded sum |
| BioAge.SummaryFigures | server/bioage.ts:84-94 | from categories whose impacts sum to whole tenths: the total is that sum; the bio age is exactly age + total rounded half up to tenths (within 0.05 of it, and equal to it when the age is in tenths); the pace is exactly 1 + total/age rounded half up to hundredths, or 1.0 when no reading was passed |
| BioAge.Summary | server/bioage.ts:84-94 | the result keeps the age and the categories; the bio age and the total are whole tenths, the pace whole hundredths, and the pace is 1 when no reading was passed; `SummaryFigures` and `Totals` state how they relate |
| BioAge.Totals | server/bioage.ts:54-95 | the reported total is the sum of the rounded category impacts, within 0.05 per category of the sum of all unrounded impacts; the bio-age and pace bounds hold; the pace is 1.0 with no readings |
| BioAge.ExactFigures | server/bioage.ts:84-86 | the bio age is `Math.round((age + total) * 10) / 10` and, when readings were passed, the pace is `Math.round((1 + total / age) * 100) / 100`, both with halves rounded up |
| BioAge.HalfwayPaceRoundsUp | server/bioage.ts:86 | age 40 with a total impact of -0.2 gives 1 + total/age = 0.995, which is reported as pace 1, not 0.99 |
| BioAge.SummaryOfNone | server/bioage.ts:84-94 | with no categories the bio age is the rounded age, the pace is 1 and the total is 0 |
| BioAge.NoEntries | server/bioage.ts:58-59 | with no configured reading nothing is added |
| BioAge.NoKnownReadings | server/bioage.ts:54-95 | when no reading has a configured key, the result has no categories, total 0 and pace 1 |
| BioAge.EntriesIgnoreUnknown | server/bioage.ts:58-59 | dropping the unconfigured readings beforehand changes nothing that the first loop adds |
| BioAge.UnknownReadingsIgnored | server/bioage.ts:57-59 | readings whose key is not configured leave the result unchanged |
| Rounding.RoundHalfUp | server/bioage.ts:73 | `Math.round` yields the integer within half a unit, with halves rounded up |
| Rounding.Round1 | server/bioage.ts:73 | rounding to tenths yields a whole number of tenths, within 0.05 of the input |
| Rounding.Round2 | server/bioage.ts:86 | rounding to hundredths yields a whole number of hundredths, within 0.005 of the input |
| Rounding.TenthIsFixed | server/bioage.ts:81 | a value already in whole tenths is unchanged by rounding to tenths |
| Rounding.TenthSum | server/bioage.ts:84 | a sum of whole tenths is a whole number of tenths |
| Rounding.Round2One | server/bioage.ts:86 | rounding 1 to hundredths gives 1 |
| Storage.FirstPerKey | server/storage.ts:53-61 | the filtered readings are no more than the input and all come from it |
| Storage.LatestMetrics | server/storage.ts:53-61 | the loop with its `seen` set returns exactly the keep-the-first-of-each-key filter of the query result |
| Storage.LatestKeys | server/storage.ts:53-61 | the kept keys are the input's distinct keys, in order of first appearance |
| Storage.LatestAreFirst | server/storage.ts:55-59 | each kept reading is the first reading of its key in the input |
| Storage.LatestIsNewest | server/storage.ts:50-61 | over newest-first input, each kept reading is at least as recent as every reading with its key |
| Storage.LatestCoversKeys | server/storage.ts:50-61 | every input key is kept exactly once, nothing else is kept, and a single user's rows stay that user's |
| HealthKit.StageTotalNew | expo-app/src/lib/healthkit.ts:166 | a night seen for the first time starts with no time in any stage |
| HealthKit.NightOfNew | expo-app/src/lib/healthkit.ts:166 | a night seen for the first time starts at `{ inBed: 0, asleep: 0 }` |
| HealthKit.NightOfSnoc | expo-app/src/lib/healthkit.ts:167-171 | a sample adds its hours to its own night, under in-bed or asleep according to its stage, or nowhere |
| HealthKit.NightsOfNew | expo-app/src/lib/healthkit.ts:166 | creating an unseen night's entry keeps every map entry equal to the totals of its samples |
| HealthKit.NightsOfSnoc | expo-app/src/lib/healthkit.ts:167-171 | adding a sample to its night's entry keeps every map entry equal to the totals of its samples |
| HealthKit.AddSample | expo-app/src/lib/healthkit.ts:167-171 | the stage test adds INBED hours to in-bed, ASLEEP/CORE/DEEP/REM hours to asleep, and ignores every other stage |
| HealthKit.AccumulateNights | expo-app/src/lib/healthkit.ts:160-172 | the night-map loop creates one entry per night key, in first-seen order, each holding the totals of that night's samples |
| HealthKit.SleepSection | expo-app/src/lib/healthkit.ts:154-200 | the sleep section returns the specified sleep metrics; with no samples it returns nothing |
| HealthKit.SleepFigures | expo-app/src/lib/healthkit.ts:174-196 | duration is the mean over nights with any time; efficiency is the mean over nights with both kinds of time; each is pushed only when it has nights |
| HealthKit.SyncHealthData | expo-app/src/lib/healthkit.ts:82-228 | the sync returns the specified metrics, nothing when the module is missing or initialisation failed, and stamps the sync time exactly when it returns something |
| HealthKit.Synced | expo-app/src/lib/healthkit.ts:82-228 | the specification of the sync: nothing without the module or after a failed initialisation, at most six metrics; its meaning under each key is stated by the `*Reported` rows, `OnlySyncKeys` and `SyncedOrder` |
| HealthKit.UnderSingle | expo-app/src/lib/healthkit.ts:96-227 | a single metric is reported under its own key only |
| HealthKit.UnderConcat | expo-app/src/lib/healthkit.ts:96-227 | the metrics under a key, taken from two consecutive groups of pushes, are those of the first group followed by those of the second |
| HealthKit.AverageUnderOther | expo-app/src/lib/healthkit.ts:101-135 | an averaging section reports nothing under another key |
| HealthKit.AverageUnderOwn | expo-app/src/lib/healthkit.ts:101-135 | an averaging section reports only under its own key |
| HealthKit.Vo2MaxUnder | expo-app/src/lib/healthkit.ts:137-152 | the VO2-max section reports only under `vo2_max` |
| HealthKit.SleepUnderOther | expo-app/src/lib/healthkit.ts:154-200 | the sleep section reports nothing outside its two keys |
| HealthKit.WalkingSpeedUnder | expo-app/src/lib/healthkit.ts:202-220 | the walking-speed section reports only under `walking_speed` |
| HealthKit.SleepMetricsUnder | expo-app/src/lib/healthkit.ts:174-196 | sleep efficiency is computed over the nights with both kinds of time, whether those come from the nights with any time or from all nights |
| HealthKit.SyncedParts | expo-app/src/lib/healthkit.ts:96-227 | the sync result under any key is the sections' contributions in section order |
| HealthKit.RestingHrReported | expo-app/src/lib/healthkit.ts:101-117 | resting HR is reported once, as its sample mean rounded to tenths, exactly when there are samples |
| HealthKit.HrvReported | expo-app/src/lib/healthkit.ts:119-135 | HRV is reported once, as its sample mean rounded to tenths, exactly when there are samples |
| HealthKit.Vo2MaxReported | expo-app/src/lib/healthkit.ts:137-152 | VO2 max is reported once, as the first sample rounded to tenths, exactly when there are samples |
| HealthKit.SleepDurationReported | expo-app/src/lib/healthkit.ts:154-183 | sleep duration is reported once, as the mean of `asleep || inBed` over the nights with any time, exactly when such nights exist |
| HealthKit.SleepEfficiencyReported | expo-app/src/lib/healthkit.ts:185-195 | sleep efficiency is reported once, as the mean of asleep/inBed*100 over the nights with both kinds of time, exactly when such nights exist |
| HealthKit.WalkingSpeedReported | expo-app/src/lib/healthkit.ts:202-220 | walking speed is reported once, as the mean rounded to hundredths, exactly when the call exists and returned samples |
| HealthKit.OnlySyncKeys | expo-app/src/lib/healthkit.ts:82-228 | no key other than the six section keys is ever reported |
| HealthKit.RankedConcat | expo-app/src/lib/healthkit.ts:96-227 | sections pushed in rank order concatenate to a result in rank order |
| HealthKit.SleepMetricsRanked | expo-app/src/lib/healthkit.ts:178-194 | duration is pushed before efficiency |
| HealthKit.SectionsRanked | expo-app/src/lib/healthkit.ts:101-220 | each section pushes only its own keys, in rank order |
| HealthKit.RankedDistinct | expo-app/src/lib/healthkit.ts:96-227 | keys of strictly increasing rank are distinct and no more numerous than the ranks |
| HealthKit.SyncedRanked | expo-app/src/lib/healthkit.ts:96-227 | the pushes come in section order |
| HealthKit.SyncedOrder | expo-app/src/lib/healthkit.ts:82-228 | the result is in section order, never reports a key twice, and has at most six metrics |
| HealthKit.StageTime | expo-app/src/lib/healthkit.ts:160-172 | with positive sample lengths, a night has time in a stage exactly when it has a sample of that stage |
| HealthKit.NightTimes | expo-app/src/lib/healthkit.ts:160-172 | with positive sample lengths, a night's in-bed or asleep time is positive exactly when it has a sample of that kind |
| HealthKit.CountedSampleOf | expo-app/src/lib/healthkit.ts:174 | a night that kept time has a counted sample |
| HealthKit.BothSamplesOf | expo-app/src/lib/healthkit.ts:185 | a night with both kinds of time has one sample of each kind |
| HealthKit.SampleTime | expo-app/src/lib/healthkit.ts:167-171 | a counted sample of positive length gives its night time in its own stage |
| HealthKit.NightOfSample | expo-app/src/lib/healthkit.ts:165-166 | the night of every sample is among the nights |
| HealthKit.NightListed | expo-app/src/lib/healthkit.ts:166 | every seen night key has an entry among the nights |
| HealthKit.CountedNightKept | expo-app/src/lib/healthkit.ts:174 | the night of a counted sample survives the any-time filter |
| HealthKit.BothNightKept | expo-app/src/lib/healthkit.ts:185 | the night of an in-bed sample and a sleep-stage sample survives the both-kinds filter |
| HealthKit.SleepDurationWhen | expo-app/src/lib/healthkit.ts:160-183 | with positive sample lengths, sleep duration is reported exactly when some sample is in bed or in a sleep stage |
| HealthKit.SleepEfficiencyWhen | expo-app/src/lib/healthkit.ts:160-195 | with positive sample lengths, sleep efficiency is reported exactly when some night has both an in-bed and a sleep-stage sample |
| HealthKit.AverageBounds | expo-app/src/lib/healthkit.ts:107 | a mean lies between the least and the greatest averaged value |
| HealthKit.ReportedMeanWithin | expo-app/src/lib/healthkit.ts:107-111 | a reported mean lies within half a rounding step of the range of the samples |
| HealthKit.NightEfficiency | expo-app/src/lib/healthkit.ts:187 | a night asleep no longer than in bed has efficiency above 0% and at most 100% |
| HealthKit.RoundedAtMostHundred | expo-app/src/lib/healthkit.ts:192 | rounding a figure of at most 100 to tenths gives at most 100 |
| HealthKit.EfficiencyAtMostHundred | expo-app/src/lib/healthkit.ts:185-195 | when no night is asleep longer than in bed, the reported efficiency is between 0% and 100% |
| JsText.EncodeChar | expo-app/app/onboarding.tsx:168 | a character up to U+FFFF is one code unit; a character above it is a high and a low surrogate from which it is recovered |
| JsText.Utf16Bmp | expo-app/app/onboarding.tsx:168 | text without characters above U+FFFF has one code unit per character, each equal to the character |
| JsText.Utf16Astral | expo-app/app/onboarding.tsx:168 | each character above U+FFFF adds two to the length |
| JsText.TrimStart | expo-app/app/onboarding.tsx:47 | `trimStart` yields a suffix; every removed character is white space; the result is empty or starts with a non-space |
| JsText.TrimEnd | expo-app/app/onboarding.tsx:168-170 | `trimEnd` yields a prefix; every removed character is white space; the result is empty or ends with a non-space |
| JsText.Trim | expo-app/app/onboarding.tsx:168-170 | `trim` never lengthens, and what it leaves is empty or starts and ends with a non-space; `TrimEmpty`, `TrimIdempotent` and `TrimToLower` state the rest |
| JsText.IsSpace | expo-app/app/onboarding.tsx:43 | among ASCII, exactly tab, line feed, vertical tab, form feed, carriage return and space are white space; no digit and no capital is white space |
| JsText.TrimEmpty | expo-app/app/onboarding.tsx:168-170 | a trimmed string is empty exactly when the string is all white space |
| JsText.TrimIdempotent | expo-app/app/onboarding.tsx:97 | trimming twice is trimming once |
| JsText.IncludesNeedsFirst | expo-app/app/onboarding.tsx:38 | a string without the first character of `sub` does not include `sub` |
| JsText.ToLowerIdempotent | expo-app/app/onboarding.tsx:97 | a lowered string has no capitals, and lowering it again changes nothing |
| JsText.LowerKeepsSpace | expo-app/app/onboarding.tsx:97 | lowering never turns white space into text or text into white space |
| JsText.TrimToLower | expo-app/app/onboarding.tsx:97 | trimming and lowering commute |
| JsText.TrimStartToLower | expo-app/app/onboarding.tsx:97 | trimming the start and lowering commute |
| JsText.TrimEndToLower | expo-app/app/onboarding.tsx:97 | trimming the end and lowering commute |
| Onboarding.LeadingRun | expo-app/app/onboarding.tsx:43 | the leading run is the longest prefix whose characters all satisfy the test |
| Onboarding.StatusBodyMatches | expo-app/app/onboarding.tsx:43-45 | the regular expression matches exactly the messages with digits, a colon and at least one more character; the captured body is what follows the colon and its white space (keeping the last character even when it is white space) |
| Onboarding.StatusBodyShaped | expo-app/app/onboarding.tsx:43-44 | the match succeeds exactly on the status-shaped messages |
| Onboarding.StatusBodySplit | expo-app/app/onboarding.tsx:43-45 | the captured body follows the status code, the colon and the white space |
| Onboarding.StatusBodyOfParts | expo-app/app/onboarding.tsx:43-45 | for `code:gap text` with a digit code, a white-space gap and a text starting with a non-space, the body captured is the text |
| Onboarding.StatusBody | expo-app/app/onboarding.tsx:43-45 | a captured body is a non-empty suffix of the message that leaves at least a digit and the colon before it; `StatusBodyMatches` and `StatusSplitUnique` state that it is exactly the group the regular expression captures |
| Onboarding.StatusSplitUnique | expo-app/app/onboarding.tsx:43-45 | at most one body is a split of a message into status code, colon, white space and captured group, so the group is determined by the message |
| Onboarding.Truncated | expo-app/app/onboarding.tsx:55 | a body of at most 200 UTF-16 code units is shown whole; a longer one is shown as its first 200 code units followed by the ellipsis, 201 in all |
| Onboarding.ParseErrorMessageCases | expo-app/app/onboarding.tsx:34-58 | the JSON-parse-failure texts always give the unavailable text; a message without the status prefix is shown as it is; otherwise there is a captured body, and the message shown is the unavailable text when the body starts with `<` after leading white space, else the body's `error` text when it has one, else the body cut to 200 code units |
| Onboarding.StatusMessageOutcome | expo-app/app/onboarding.tsx:44-55 | for a status message that does not announce a parse failure, the outcome for the body the scan captures: unavailable for markup, the `error` text when present, else the cut body; this covers a remainder that is all white space, whose last unit is the body |
| Onboarding.ParseErrorMessage | expo-app/app/onboarding.tsx:34-58 | the message shown is never empty unless the error's own message is the empty string; `ParseErrorMessageCases` and the rows below it state which message is shown |
| Onboarding.MissingMessage | expo-app/app/onboarding.tsx:35 | an error without a message shows "Something went wrong" |
| Onboarding.MarkupBodyUnavailable | expo-app/app/onboarding.tsx:46-49 | a status message whose body starts with `<` shows the unavailable text |
| Onboarding.ServerErrorShown | expo-app/app/onboarding.tsx:50-53 | a status message whose body is JSON with a non-empty `error` shows that error |
| Onboarding.PlainBodyShown | expo-app/app/onboarding.tsx:54-55 | any other status message shows its body, cut to 200 code units and an ellipsis |
| Onboarding.IsStepValid | expo-app/app/onboarding.tsx:164-174 | step 1 is valid exactly when email and age have a non-space character and the password has at least 8 UTF-16 code units; step 2 exactly when height and weight have a non-space character; every other step is valid |
| Onboarding.AstralPasswordAccepted | expo-app/app/onboarding.tsx:168 | a password of four characters above U+FFFF has length 8 and meets the step-1 minimum |
| Onboarding.OnboardingScreen.constructor | expo-app/app/onboarding.tsx:62-68 | the screen starts on step 0 with an empty form and sex `female` |
| Onboarding.OnboardingScreen.EditBasics | expo-app/app/onboarding.tsx:208-270 | the basics inputs change email, password, age and sex only while step 1 is shown, and keep the screen's invariant |
| Onboarding.OnboardingScreen.EditBody | expo-app/app/onboarding.tsx:273-308 | the body inputs change height and weight only while step 2 is shown, and keep the screen's invariant |
| Onboarding.OnboardingScreen.HandleNext | expo-app/app/onboarding.tsx:176-182 | before the last step it starts the fade-out towards the next step, leaving the step shown as it is and recording the form it was left with; on the last step it starts finishing |
| Onboarding.OnboardingScreen.PressContinue | expo-app/app/onboarding.tsx:338-342 | while loading or invalid nothing happens; otherwise it heads for the next step, or on the last step finishes; the step shown does not change, so pressing again during a fade-out does not finish; finishing implies the basics and body were valid when Continue was pressed on them |
| Onboarding.OnboardingScreen.FadeOutDone | expo-app/app/onboarding.tsx:75-78 | the end of the fade-out commits the step it was heading for and changes nothing else |
| Onboarding.EmailClearedDuringFade | expo-app/app/onboarding.tsx:75-78 | clearing the email during the fade-out reaches step 2 with the basics invalid, though they were valid when Continue was pressed |
| Onboarding.SeedMetricsInSyncOrder | expo-app/app/onboarding.tsx:82-89 | the sample metrics list the six sync keys once each, in the order a sync reports them |
| Onboarding.MetricsToRegister | expo-app/app/onboarding.tsx:130-143 | the synced metrics are registered unless there are none, in which case the sample metrics are; the list is never empty |
| Onboarding.FinishWithHealthKit | expo-app/app/onboarding.tsx:126-162 | finishing posts the synced metrics or the sample metrics, always non-empty and in sync order, and the sample metrics whenever HealthKit is missing or fails to initialise |
| Onboarding.RegistrationDefaults | expo-app/app/onboarding.tsx:91-104 | the posted height, weight and age are the parsed numbers, except that an unparsable or zero entry becomes 170 cm, 65 kg or 30 years, so none is zero; password and sex pass through; onboarding is marked complete |
| Onboarding.RegistrationOf | expo-app/app/onboarding.tsx:91-104 | the registration body; its height, weight and age are never zero and it is marked complete; `RegistrationDefaults`, `EmailNormalized` and `ValidBasicsRegistration` state the rest |
| Onboarding.EmailNormalized | expo-app/app/onboarding.tsx:97 | the posted email has no surrounding white space and no capitals, and normalising it again changes nothing |
| Onboarding.ValidBasicsRegistration | expo-app/app/onboarding.tsx:97-98 | after a valid basics step the posted email is non-empty and the password has at least 8 code units |
| PrototypeLookup.TableKeysAreOwn | server/bioage.ts:17-27 | no metric key is the name of an `Object.prototype` member |
| PrototypeLookup.LookupAsWritten | server/bioage.ts:32 | the lookup as written finds the own entry for a configured key, an inherited member for an `Object.prototype` name, and nothing otherwise |
| PrototypeLookup.ImpactAsWritten | server/bioage.ts:31-52 | `computeMetricImpact` as written throws exactly for inherited names and otherwise agrees with the own-property scorer |
| PrototypeLookup.GroupedAsWritten | server/bioage.ts:57-78 | the first loop as written, when it does not throw, builds a well-formed keyed object |
| PrototypeLookup.GroupedAsWrittenAgrees | server/bioage.ts:57-78 | the first loop as written succeeds exactly when no reading has an inherited name, and then agrees with the own-property model |
| PrototypeLookup.CalculateBioAgeAsWrittenAgrees | server/bioage.ts:54-95 | `calculateBioAge` as written throws exactly when some reading has an inherited name, and otherwise returns `BioAgeOf` |
| PrototypeLookup.ToStringReadingThrows | server/bioage.ts:32-35 | a single reading keyed `toString` makes the code as written throw, where the own-property model ignores it |

## Left out

- Numbers are exact reals. IEEE-754 rounding error, `NaN` and `Infinity` are not modelled.
- BioAge.CalculateBioAge: requires a non-zero age when readings are passed. The source would then divide by zero and report `Infinity` or `NaN` as the pace.
- BioAge.IsFresh: takes `now` and `recordedAt` as milliseconds. `Date.now()` and the `Date` parsing of `recordedAt` are inputs.
- The score field the source calls `fresh` is named `isFresh`, and the configuration field `label` is named `labelText`, because `fresh` and `label` are reserved words in Dafny.
- The unit of `bmi` is kept as the two characters the source file holds (U+00C2 U+00B2), not as `²`.
- BioAge.CategoryLabel: models `labels[category] || category` with an own-property lookup. For an inherited name such as `"toString"`, the source returns the inherited function, which is truthy, instead of the string; the model returns the name. `getMetricLabel` has no such case, because an inherited member has no `label` and the key is returned. The finding below covers the inherited lookup in the scorer.
- Storage: the database query is an input. The model states `ORDER BY recordedAt DESC` and `WHERE userId = ...` as the preconditions `NewestFirst` and `OfUser`, and does not model the query itself.
- HealthKit: the native module, the permission prompt, `AsyncStorage` and the sample limits of each query (30, 30, 10, 60, 30) are not modelled. What each call answered is an input; a rejected call is `None`.
- HealthKit: a sleep sample arrives with its night key (the first ten characters of the ISO start time) and its length in hours already computed. Date arithmetic and the ISO formatting are not modelled.
- HealthKit.Efficiency: guarded to 0 when a night has no in-bed time. That guard never applies, because the efficiency is only averaged over nights with in-bed time.
- HealthKit: the client's category names (`autonomic`, `fitness`, `mobility`) and the keys `sleep_efficiency` and `walking_speed` do not appear in the server's metric table. `BioAge.UnknownReadingsIgnored` shows what the server does with such keys.
- Onboarding: the opacity animation itself, the loading indicator, the alert dialogs and navigation are not modelled. When the sync returns nothing, the user is taken to choose "Continue with sample data".
- Onboarding.ParseErrorMessage: `JSON.parse(body).error` is the input `errorField`. It yields the string error or `None`, so a truthy non-string `error` is not modelled.
- Onboarding.RegistrationOf: `parseFloat` and `parseInt` are inputs (`None` for `NaN`). The network request, `setAuth` and the metrics upload are not modelled.
- JsText.ToLower: only lowers the ASCII capitals. JavaScript's full Unicode case mapping is not modelled.
- JsText: a JavaScript string is a `JsString`, a sequence of UTF-16 code units. Text typed into the form enters the model already encoded; `Utf16` gives the encoding of a Dafny string (whose `char`s are Unicode scalar values), and the fixed messages are written through it.
- Onboarding.OnboardingScreen.EditBasics: the screen's inputs are only rendered on their own step. The model states this as the methods changing nothing on other steps.
- Onboarding.OnboardingScreen.FadeOutDone: the 150 ms of the fade-out are not timed; its end is a separate call that may come after any number of edits and presses. The screen's invariant therefore says only that each step left was valid when Continue was pressed on it, not that the form still is. When Continue is pressed again during a fade-out, the animation library stops the earlier animation and runs its callback at once. That is not modelled separately, because it commits the same step as the call that ends the fade.

## Findings

| source | as written | input that shows it | evidently intended | confidence | as-written member | corrected member |
|---|---|---|---|---|---|---|
| server/bioage.ts:32-35 | `METRIC_CONFIG[metricKey]` with the guard `!config` also finds the members that every object inherits from `Object.prototype`; for such a key `config.optimalRange` is `undefined`, and destructuring it throws a `TypeError` that aborts all of `calculateBioAge` | one reading with metricKey `"toString"` (value 1) | a key without its own table entry is skipped, as every other unknown key is | not executed | PrototypeLookup.ToStringReadingThrows | BioAge.UnknownReadingsIgnored |
