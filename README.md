# Glucosense analysis pipeline — a Dafny model

Glucosense estimates blood glucose from three readings: heart rate, SpO2 and
breath acetone. It sends the readings to a generative language model and shows
the result next to live sensor data. This project models the decision logic of
that pipeline in Dafny and proves properties of it:

- **`analyzeHealthData`** (app/actions/gemini-actions.ts), a server action. It
  picks the test-type sentence and the health-context sentence, adds the
  optional patient-information line and fills the prompt template. It then
  takes the greedy `{…}` fragment out of the model's reply. Every failure
  collapses into one error record.
- **The analysis card** (components/analysis-results.tsx). It reads the lower
  bound of the returned glucose range with `split('-')[0]` and `parseFloat`,
  and uses it to choose the status badge and the progress bar.
- **The live readings card** (components/real-time-health-data.tsx). It holds
  the trend indicator, the colour of each reading, and the two state slots
  (latest sample, previous sample) that the database listener updates.

Files:

| file | module | contents |
|---|---|---|
| `health_types.dfy` | `HealthTypes` | `Option`, the `HealthData` sample and the `GeminiAnalysis` record (types/health-data.ts) |
| `js_builtins.dfy` | `JsBuiltins` | the JavaScript built-ins the core uses: `trim`, `split(sep)[0]`, `parseFloat` on plain decimals, first/last character search, and where a piece lands in a concatenation |
| `gemini_actions.dfy` | `GeminiActions` | the prompt builder, the reply extraction and the catch-all |
| `analysis_results.dfy` | `AnalysisResults` | glucose status, badge and progress bar |
| `real_time_health_data.dfy` | `RealTimeHealthData` | trend, colours, and the `HealthDataCard` class with its listener |

Foreign code is passed in as parameters:

- `gemini` stands for the language-model call. It returns `None` when the
  client, the generation or `response.text()` throws.
- `jsonParse` stands for `JSON.parse`. It returns `None` when the fragment is
  not JSON.
- `fmt` stands for writing a number into a template literal.

JavaScript numbers are `real`. `NaN` from `parseFloat` is `None`, and every
comparison with it is false (`NumberLess`, `NumberGreater`).

The prompt's three long fixed stretches are grouped in a `Template` value. They
are the preamble, the requirements heading with requirement 1, and the closing
text. `Prompt` is `PromptFrom(SourceTemplate, …)`, where `SourceTemplate` holds
the text of the template literal at app/actions/gemini-actions.ts:40-96. The
layout lemmas are proved for every template, so they hold for the source's.
`Prompt` is a function of its arguments, so equal arguments give the identical
prompt.

The model follows what the code does, including where that differs from what
the names and the surrounding text suggest:

- The trend threshold is `current * 0.02` with no absolute value, so a current
  value at or below zero has an empty neutral band (`NonPositiveNeverNeutral`).
- A previous value of 0 is falsy and counts as absent (`ZeroPreviousIsNeutral`).
- The parsed reply is not checked field by field. Whatever `JSON.parse` yields
  is returned (`AnalyzeHealthData`).
- `analyzeHealthData`, the analysis card and the live readings card take the
  acetone value as given: none of them divides it by 100.

## Model

| member | source | states |
|---|---|---|
| GeminiActions.TestContext | app/actions/gemini-actions.ts:18-28 | "fasting" gives the fasting sentence and "postprandial" the post-meal sentence, each in both directions; every other test type (the default "random", the empty string, anything else) gives the random-state sentence and is never an error |
| GeminiActions.BuildTestContext | app/actions/gemini-actions.ts:18-28 | the `let`/`switch`/`+=` accumulation gives exactly `TestContext(testType)` |
| GeminiActions.HealthContext | app/actions/gemini-actions.ts:31-33 | the pre-diabetic sentence if and only if the flag is set, the no-condition sentence if and only if it is not |
| GeminiActions.Requirement3 | app/actions/gemini-actions.ts:63 | requirement 3 asks to account for the condition exactly when the health context names it, and to assess risk exactly when it does not |
| GeminiActions.PatientInfo | app/actions/gemini-actions.ts:36-38 | empty if and only if the free text is all white space (so `trim()` is empty); otherwise the label followed by the text untrimmed |
| JsBuiltins.Trim | app/actions/gemini-actions.ts:36 | `trim()` is the slice of the text between a leading and a trailing white-space run; it is empty exactly for all-white-space text, and otherwise neither starts nor ends with white space |
| GeminiActions.PromptFrom | app/actions/gemini-actions.ts:40-96 | the template literal on a template value: preamble, patient section, readings, requirements and closing text, in that order; the layout lemmas below state where each piece lands |
| GeminiActions.Prompt | app/actions/gemini-actions.ts:40-96 | the prompt is `PromptFrom` on the template text of the source, so every layout lemma holds of it |
| GeminiActions.PromptFixedText | app/actions/gemini-actions.ts:40-96 | the prompt starts with the fixed preamble and ends with the fixed closing text (requirements 4-5, reference values, output format) |
| GeminiActions.PromptPatientSection | app/actions/gemini-actions.ts:51-55 | the health context stands right after the preamble; on the next template line the test-type sentence is followed immediately by the patient information, and then by the input-data heading |
| GeminiActions.PromptReadings | app/actions/gemini-actions.ts:56-58 | each reading occurs in the prompt followed by its unit and normal range |
| GeminiActions.PromptRequirements | app/actions/gemini-actions.ts:60-63 | requirement 2 quotes the raw test type and requirement 3 is the one chosen by the flag |
| GeminiActions.PromptWithoutPatientDetails | app/actions/gemini-actions.ts:51-55 | with the flag unset, a non-fasting, non-post-meal test type and blank extra text: the no-condition sentence, then the random-state sentence running straight into the input-data heading |
| GeminiActions.DefaultPrompt | app/actions/gemini-actions.ts:9-11 | with the parameter defaults (false, "random", "") the prompt carries the no-condition sentence and the random-state sentence with no patient-information line |
| GeminiActions.ExtractJsonFragment | app/actions/gemini-actions.ts:103-105 | a fragment exists if and only if some `}` follows some `{`; it runs from the first `{` of the text to the last `}`, inclusive |
| GeminiActions.ExtractFromProse | app/actions/gemini-actions.ts:103-105 | an object embedded in prose that has no `{` before it and no `}` after it is extracted exactly |
| JsBuiltins.IndexOf | app/actions/gemini-actions.ts:103 | the leftmost occurrence: the character is there and not before it; `None` exactly when the character is absent |
| JsBuiltins.LastIndexOf | app/actions/gemini-actions.ts:103 | the rightmost occurrence: the character is there and not after it; `None` exactly when the character is absent |
| GeminiActions.RequestAnalysis | app/actions/gemini-actions.ts:98-108 | a service failure if and only if the call fails; no fragment if and only if the reply has no `{…}`; invalid JSON if and only if there is a fragment that `JSON.parse` rejects; and when `JSON.parse` accepts the fragment, the result is exactly what it gives |
| GeminiActions.AnalyzeHealthData | app/actions/gemini-actions.ts:104-117 | never fails: a failed call, a reply with no fragment or a fragment that is not JSON give the error record (status "error", risk "unknown", one recommendation); otherwise the parsed fragment |
| GeminiActions.AnalyzeWithDefaults | app/actions/gemini-actions.ts:9-11 | the three-argument call sends the default prompt, and a failed call gives the error record |
| JsBuiltins.SplitFirst | components/analysis-results.tsx:48 | `split('-')[0]` is a hyphen-free prefix that is either the whole text or stops right before the first hyphen |
| JsBuiltins.SplitFirstIgnoresTail | components/analysis-results.tsx:48 | nothing after the first separator reaches `split(sep)[0]` |
| JsBuiltins.ParseFloat | components/analysis-results.tsx:48 | `NaN` (`None`) exactly when no decimal literal starts after the leading white space and the sign |
| JsBuiltins.ParseFloatReadsInteger | components/analysis-results.tsx:48 | white space, then a whole numeral not followed by a digit, a point, `e` or `E`, reads back as that numeral's value |
| JsBuiltins.ParseFloatReadsDecimal | components/analysis-results.tsx:48 | white space, then a numeral with a fraction, reads back as its value when no digit, `e` or `E` follows |
| JsBuiltins.ParseFloatNegative | components/analysis-results.tsx:48 | a leading minus gives the negation of the numeral that follows it |
| JsBuiltins.ParseFloatLeadingPoint | components/analysis-results.tsx:48 | a numeral that opens with its point (".5") is read as its fraction alone |
| AnalysisResults.LowerBound | components/analysis-results.tsx:48 | a range without a hyphen is parsed whole; a range that starts with a hyphen has no lower bound (`NaN`) |
| AnalysisResults.GetGlucoseStatus | components/analysis-results.tsx:47-52 | warning if and only if the lower bound parses and is below 70; danger if and only if it parses and is above 180; normal if and only if it does not parse or lies in [70, 180] |
| AnalysisResults.UpperBoundIgnored | components/analysis-results.tsx:48 | the status of `lower-upper` is the status of `lower` alone, whatever the upper bound |
| AnalysisResults.LeadingHyphenIsNormal | components/analysis-results.tsx:48-51 | a range starting with `-` (a negative lower bound) has an empty first part, parses as `NaN` and is normal |
| AnalysisResults.WholeLowerBound | components/analysis-results.tsx:48 | a whole-numeral lower bound is read as its value when a hyphen, a unit or nothing follows it (not `e` or `E`) |
| AnalysisResults.DecimalLowerBound | components/analysis-results.tsx:48 | a lower bound with a fraction is read as its value when no digit, `e` or `E` follows it |
| AnalysisResults.NonNumericRangeIsNormal | components/analysis-results.tsx:48-51 | a range starting with a letter has no lower bound and is normal |
| AnalysisResults.LowRangeExample | components/analysis-results.tsx:49 | "65-85 mg/dL" is a warning |
| AnalysisResults.HighRangeExample | components/analysis-results.tsx:50 | "200-220 mg/dL" is danger |
| AnalysisResults.BoundaryRangeExample | components/analysis-results.tsx:51 | "70-99 mg/dL" is normal: the boundary 70 is inside the normal band |
| AnalysisResults.FailedAnalysisShowsNormal | components/analysis-results.tsx:54-72 | the error record's range "Unable to estimate" is shown with the "Normal Range" badge and a half-filled bar |
| AnalysisResults.StatusBadge | components/analysis-results.tsx:56-72 | "Normal Range" if and only if normal, "Low - Monitor Closely" if and only if warning, "High - Take Action" if and only if danger; each badge colour begins with the progress-bar background of the same status |
| AnalysisResults.BadgesDistinct | components/analysis-results.tsx:56-72 | different statuses show different labels and different colours |
| AnalysisResults.ProgressValue | components/analysis-results.tsx:114 | fill 50 if and only if normal, 25 if and only if warning, 85 if and only if danger, so the bar is never empty or full |
| AnalysisResults.ProgressClass | components/analysis-results.tsx:115-121 | green background if and only if normal, yellow if and only if warning, red if and only if danger |
| AnalysisResults.ProgressMatchesBadge | components/analysis-results.tsx:56-72 | the bar's background begins the badge colour of its own status and of no other status |
| AnalysisResults.ProgressFollowsLowerBound | components/analysis-results.tsx:114 | the bar's fill never drops as the parsed lower bound rises |
| RealTimeHealthData.TrendIndicator | components/real-time-health-data.tsx:35-48 | neutral without a non-zero previous value; otherwise neutral if and only if previous lies strictly between 98% and 102% of current, up if and only if previous is below current and at most 98% of it, down if and only if previous is at least current and at least 102% of it |
| RealTimeHealthData.TrendScaleInvariant | components/real-time-health-data.tsx:38-41 | scaling both values by the same positive factor leaves the indicator unchanged |
| RealTimeHealthData.NonPositiveNeverNeutral | components/real-time-health-data.tsx:39-41 | with current at or below zero, a non-zero previous value never gives neutral, and an unchanged value gives down |
| RealTimeHealthData.TrendAsymmetry | components/real-time-health-data.tsx:38-46 | 100 to 102 is neutral, but 102 to 100 is down |
| RealTimeHealthData.TrendExamples | components/real-time-health-data.tsx:36-46 | 100 to 110 is up, 100 to 90 is down, a single sample is neutral |
| RealTimeHealthData.ZeroPreviousIsNeutral | components/real-time-health-data.tsx:36 | a previous value of exactly 0 is treated as absent |
| RealTimeHealthData.HeartRateColor | components/real-time-health-data.tsx:51-54 | yellow if and only if below 60 or above 100; red if and only if within 60-100 |
| RealTimeHealthData.SpO2Color | components/real-time-health-data.tsx:56-60 | as written: yellow if and only if below 95, blue if and only if 95 or above |
| RealTimeHealthData.SpO2NeverRed | components/real-time-health-data.tsx:58 | the red branch is unreachable: no level is red, and levels below 90 are yellow |
| RealTimeHealthData.SpO2ColorIntended | components/real-time-health-data.tsx:56-60 | corrected order: red if and only if below 90, yellow if and only if in [90, 95), blue if and only if 95 or above |
| RealTimeHealthData.SpO2ColorsAgreeFrom90 | components/real-time-health-data.tsx:56-60 | the written and corrected colours agree exactly on levels of 90 and above |
| RealTimeHealthData.AcetoneColor | components/real-time-health-data.tsx:62-66 | yellow if and only if strictly between 2 and 5, red if and only if 5 or above, green if and only if 2 or below |
| RealTimeHealthData.HealthDataCard.constructor | components/real-time-health-data.tsx:11-13 | both slots start empty and the card is loading |
| RealTimeHealthData.HealthDataCard.OnSnapshot | components/real-time-health-data.tsx:18-29 | as written: a snapshot with data becomes the latest sample, the previous slot keeps its value because the listener sees the empty latest slot of the first render, and loading ends |
| RealTimeHealthData.HealthDataCard.OnSnapshotIntended | components/real-time-health-data.tsx:22-26 | the previous slot takes the old latest sample when there was one and is otherwise unchanged, so it keeps holding the sample before the latest |
| RealTimeHealthData.HealthDataCard.ShownTrend | components/real-time-health-data.tsx:119 | a tile shows a trend if and only if both slots hold a sample; the trend compares the two samples' values |
| RealTimeHealthData.WatchAsWritten | components/real-time-health-data.tsx:18-32 | fed any sequence of samples, the card as written never shows a trend |
| RealTimeHealthData.WatchIntended | components/real-time-health-data.tsx:22-26 | with the intended update, from the second sample on each tile compares each sample with the one before it |

## Left out

- The language-model client is not modelled: the API key, the model name and `generateContent` (app/actions/gemini-actions.ts:14-15, 98-100). It is the `gemini` parameter. A missing key shows up only as a failed call.
- The error logging at app/actions/gemini-actions.ts:110 is output only.
- `JSON.parse` is the `jsonParse` parameter and is assumed to produce a `GeminiAnalysis`-shaped value. The source returns any JSON value unchecked, and the type system does not capture that.
- How a JavaScript number is written into a template literal is not modelled. It is the `fmt` parameter.
- ParseFloat: covers white space, a sign, digits and a decimal fraction. Exponents, `Infinity` and hexadecimal-looking text are not read: a range starting "Infinity" would be danger in JavaScript but is normal here.
- TrendIndicator: works on exact reals. The floating-point rounding of `current * 0.02` and of the difference at the edge of the band is not modelled, and neither is a `NaN` previous value.
- HealthData readings are reals. `NaN` and infinite readings are not modelled, and neither is the unchecked cast of the snapshot value (components/real-time-health-data.tsx:21).
- The database subscription is modelled as calls to `HealthDataCard.OnSnapshot` (components/real-time-health-data.tsx:16-18); unsubscribing on unmount (components/real-time-health-data.tsx:31) is not modelled. React's batching of the two state updates is modelled as running in order.
- Rendering is not modelled: JSX, icons, the timestamp and `toFixed` formatting (components/real-time-health-data.tsx:68-166), and the loading placeholder text.
- The analysis card's loading timers are UI timing and are not modelled (components/analysis-results.tsx:15-40, 74-90). Neither are the `null` analysis (42-44), the "mg/dL" suffix or the list of recommendations (112, 134-139).
- AnalyzeWithDefaults: states only the failed-call case. The other cases follow from `AnalyzeHealthData`, to which it delegates with the defaults.
- app/page.tsx and components/health-data-form.tsx are not part of this model. The form passes the acetone value to `analyzeHealthData` unscaled (components/health-data-form.tsx:50).

## Findings

| source | as written | input that shows it | evidently intended | confidence | as-written member | corrected member |
|---|---|---|---|---|---|---|
| components/real-time-health-data.tsx:56-60 | `level < 95` is checked before `level < 90`, so the red branch is dead | SpO2 85 gives "text-yellow-500" | red below 90, yellow from 90 to 95, blue from 95 | high, not executed | RealTimeHealthData.SpO2NeverRed | RealTimeHealthData.SpO2ColorIntended |
| components/real-time-health-data.tsx:22-32 | the listener is registered once (empty dependency list) and reads `latestData` from the first render, which is `null`, so `previousData` is never set | two snapshots s1, s2: the previous slot stays empty and no trend arrow is ever shown | after s2, previous is s1 and each tile shows the trend from s1 to s2 | high, not executed | RealTimeHealthData.WatchAsWritten | RealTimeHealthData.WatchIntended |
