# Market regime classification, Telegram sanitising and daily run selection, in Dafny

This project models three pieces of a market-stress monitoring bot and proves
properties about them.

- **The regime classifier** (`history_store.py`). `compute_regime` turns a
  chronological list of daily rows into one regime record. It works in these steps:
  - It averages the scores of the last `window_days` into a score.
  - It picks a comparable value: an absolute score, a z-score against a
    lookback sample, a percentile rank within that sample, or the value type
    of a calibration artifact.
  - It classifies that value with hysteresis bands into *Fase 1 - AUGE*,
    *Fase 2 - ESPECULACIÓN* or *Fase 3 - QUIEBRE*, starting from the last
    phase recorded in the history.
  - It attaches a trend (Ascendente, Descendente or Estable) and a confidence
    (Alta or Baja).
- **The Telegram sanitiser** (`telegram_format.py`). `sanitize_telegram_html`
  does the following:
  - It turns Markdown emphasis into `<b>`/`<i>` tags.
  - It strips heading and bullet prefixes.
  - It deletes every remaining Markdown marker.
  - It trims the result.
- **The daily run selection** (`scripts/export_runs_truth.py`).
  `latest_run_per_day` keeps, for each day within a range, the workflow run
  with the latest start time. It returns those runs in day order.

## Layout

| file | module | contents |
|---|---|---|
| `optional.dfy` | `Optional` | `Option` |
| `regime_types.dfy` | `RegimeTypes` | methods, phases and their labels, trends, confidences, threshold sets |
| `thresholds.dfy` | `ThresholdResolver` | the configuration, `_normalise_thresholds`, `_get_regime_thresholds` |
| `calibration.dfy` | `CalibrationLoader` | the calibration artifact and `_load_calibration` |
| `hysteresis.dfy` | `HysteresisClassifier` | `phase_from_score`, `_apply_hysteresis` |
| `value_transformer.dfy` | `ValueTransformer` | windowed means, variance, `_percentile_rank` |
| `method_selector.dfy` | `MethodSelector` | `_select_regime_method` |
| `regime.dfy` | `RegimeComputer` | `compute_regime`: the specification `Regime` and the procedure `ComputeRegime`, proved equal |
| `regime_properties.dfy` | `RegimeProperties` | what `compute_regime` guarantees, the two history checks, and the finding below |
| `telegram_format.dfy` | `TelegramFormat` | `sanitize_telegram_html` as a chain of scanning passes |
| `runs_truth.dfy` | `RunsTruth` | `latest_run_per_day` as a loop over a dictionary, specified by a fold |

### Modelling choices

- **Configuration.** Environment variables become the `Config` datatype,
  already converted and with defaults applied (`DefaultConfig`). Both
  lookbacks and both sample tiers are fields of `Config`.
- **The calibration artifact** is a parsed JSON document, `Option<Json>`.
  `None` stands for a path that is missing, unreadable or not JSON.
- **Square root.** The z-score's square root is a parameter `sqrt`. The only
  property required of it is that it is positive on positive arguments. The
  source's `std > 0` test is then `variance > 0`.
- **Phase labels.** The stored `regime_phase` text is parsed into a `Phase`.
  A label that is none of the four known phases is kept verbatim as `Other`,
  as the source keeps any string.
- **Runs.** A run carries the start text and the calendar day it parses to.
  Comparing day numbers stands in for comparing the ISO date keys; the two
  orders agree on four-digit years.
- **The dictionary `selected`** is a map together with its keys in insertion
  order. That is the order a Python dictionary iterates in, and the order
  `sorted` receives.
- **Regular expressions.** Each `re.sub` is a left-to-right scan that tries a
  match at every position and resumes after the match. Greedy runs take the
  longest match and lazy groups the shortest, as in the source's patterns.
  `.` excludes the newline, and `\s` is Python's Unicode whitespace.

## Model

| member | source | states |
|---|---|---|
| RegimeTypes.ParseMethod | history_store.py:370-372 | the lower-cased REGIME_METHOD text denotes a method whose name is that text; it is an unrecognised method exactly when it is none of absolute, zscore, percentile, calibrated |
| RegimeTypes.ParseMethodName | history_store.py:370-385 | reading a method's name back gives the method |
| RegimeTypes.ParsePhase | history_store.py:405-408 | an empty stored label is no phase; a non-empty one is a phase whose label is that text |
| RegimeTypes.ParsePhaseLabel | history_store.py:329-359 | storing a phase label and reading it back gives the phase |
| ThresholdResolver.NormaliseThresholds | history_store.py:225-230 | the enter value is kept; the exit is never above it; a missing exit becomes the enter value; otherwise the exit is min(exit, enter) |
| ThresholdResolver.InvertedExitCollapses | history_store.py:228-229 | an exit above its enter collapses onto the enter |
| ThresholdResolver.NormalisedSet | history_store.py:234-241 | both phases of a set are normalised, and the set has non-inverted bands |
| ThresholdResolver.ResolveThresholds | history_store.py:233-280 | all three tables (absolute, zscore, percentile) have non-inverted bands; each enter is the configured value and each exit is min(configured exit, enter) |
| ThresholdResolver.DefaultThresholds | history_store.py:234-259 | with nothing configured the tables are 2.0/1.5, 4.0/3.0 and 0.25/0.0, 1.0/0.6 and 60/50, 85/70 |
| CalibrationLoader.LoadCalibration | history_store.py:283-323 | a calibration comes back exactly when the document is an object with value_type among absolute/zscore/percentile and all four numeric thresholds; its value type is the document's; its bands are normalised and non-inverted |
| HysteresisClassifier.Direct | history_store.py:355-359 | phase 3 exactly when the value reaches the phase-3 enter; phase 1 exactly when it is below both enters |
| HysteresisClassifier.DirectMonotone | history_store.py:355-359 | a higher value is never a less severe phase |
| HysteresisClassifier.PhaseFromScore | history_store.py:326-334 | no score gives the unknown phase; a score gives the direct classification against the absolute thresholds |
| HysteresisClassifier.ApplyHysteresis | history_store.py:337-359 | no value keeps the previous phase (unknown if none); phase 3 is left only below its exit, to phase 2 or 1 by the phase-2 enter; phase 2 goes up at the phase-3 enter and down below its exit; otherwise the value is classified directly |
| HysteresisClassifier.FirstClassificationIsDirect | history_store.py:355-359 | with no previous phase the result is `phase_from_score` |
| HysteresisClassifier.DiffersOnlyInsideBands | history_store.py:341-353 | with ordered bands, hysteresis differs from direct classification only for values inside a band [exit, enter) |
| HysteresisClassifier.HighValueIsQuiebre | history_store.py:341-356 | with ordered bands, a value at or above the phase-3 enter is phase 3 whatever came before |
| HysteresisClassifier.StickyPhase2 | history_store.py:348-353 | day after day, values within [phase-2 exit, phase-3 enter) never move phase 2 |
| HysteresisClassifier.StickyPhase3 | history_store.py:341-346 | values never below the phase-3 exit keep phase 3 |
| HysteresisClassifier.LowerBandKeepsPhase | history_store.py:348-359 | values oscillating inside the phase-2 band leave phase 1 and phase 2 each where they were |
| ValueTransformer.Lookback | history_store.py:401 | `s[-k:] if k > 0 else s`: the last min(k, n) elements, or all of them when k is not positive |
| ValueTransformer.SumSquaresZero | history_store.py:429 | a sum of squared deviations is non-negative, and zero exactly when every value equals the centre |
| ValueTransformer.ZeroVarianceIffConstant | history_store.py:428-431 | the variance of a non-empty sample is non-negative, and zero exactly when the sample is constant |
| ValueTransformer.MeanConstant | history_store.py:402 | the mean of a constant sample is that constant |
| ValueTransformer.CountLessExtremes | history_store.py:365 | the count is the sample size exactly when all values are below, and zero exactly when none is |
| ValueTransformer.TiesNotCounted | history_store.py:365 | values equal to the current one are not counted |
| ValueTransformer.CountLessMonotone | history_store.py:365 | a higher current value never counts fewer values |
| ValueTransformer.PercentileRank | history_store.py:362-366 | no rank exactly for an empty sample; otherwise a rank in [0, 100] with rank × size = 100 × the number of values strictly below |
| ValueTransformer.PercentileExtremes | history_store.py:362-366 | the rank is 100 exactly when every value is below the current one, and 0 exactly when none is |
| ValueTransformer.PercentileMonotone | history_store.py:362-366 | a higher current value never has a lower rank |
| MethodSelector.SelectRegimeMethod | history_store.py:369-385 | an explicit method is the lower-cased text; under auto a calibration gives calibrated; without one percentile iff n ≥ pct_min, zscore iff zMin ≤ n < pct_min, absolute iff n is below both |
| MethodSelector.LowerIdempotent | history_store.py:370 | lower-casing twice is lower-casing once |
| MethodSelector.LowerOfLowercase | history_store.py:370 | text without capital letters is its own lower-case form |
| MethodSelector.OverrideIgnoresCase | history_store.py:370-372 | the selection depends on REGIME_METHOD only through its lower-cased text |
| MethodSelector.AutoIsKnown | history_store.py:374-385 | under auto the result is one of the four known methods |
| MethodSelector.TierMonotone | history_store.py:378-385 | under auto without a calibration, more history never selects a lower tier |
| MethodSelector.DefaultTiers | history_store.py:378-385 | with tiers 90/180: 200 scores give percentile, 100 give zscore, 10 give absolute |
| RegimeComputer.Scores | history_store.py:389 | at most one score per row; empty exactly when no row has a score |
| RegimeComputer.ScoresOne | history_store.py:389 | a row contributes its score when it has one and nothing otherwise |
| RegimeComputer.ScoresAppend | history_store.py:389 | the scores of consecutive rows are the concatenation of their scores, so the scores keep the order of the rows |
| RegimeComputer.ScoresOfHistory | scripts/check_history_store.py:19-47 | reading the scores back from rows written one per score, with no recorded phase, gives the list |
| RegimeComputer.LatestRecordedPhaseSpec | history_store.py:404-408 | no recorded phase exactly when no row has a label; otherwise it is the label of a row after which no row has one |
| RegimeComputer.HistoryHasNoPhase | scripts/check_history_store.py:32 | rows written from scores alone have no recorded phase |
| RegimeComputer.PreviousPhase | history_store.py:404-410 | the last recorded phase if any, else the direct classification of the last score |
| RegimeComputer.Transform | history_store.py:412-446 | the applied method is the resolved one, except zscore with zero variance, which falls back to absolute; absolute uses the score and the absolute table; zscore uses (score − mean)/sqrt(variance) with variance > 0 and the zscore table; percentile uses the rank in its sample and the percentile table; an unrecognised method has no value |
| RegimeComputer.IntendedThresholdsOrdered | history_store.py:417-446 | with ordered configured tables and an ordered calibration, the threshold set the corrected model classifies with has no inverted band |
| RegimeComputer.ConfidenceOf | history_store.py:449-457 | Alta exactly when the window has at least min_days scores and the applied zscore/percentile has its sample tier |
| RegimeComputer.TrendOf | history_store.py:459-469 | a trend score exactly when trend_days > 0 and there are two full trend windows; Ascendente at +0.5 or more, Descendente at −0.5 or less, otherwise Estable |
| RegimeComputer.Regime | history_store.py:388-480 | no phase and no method exactly when there are no scores, and then the empty record; the window size is echoed; the reported method is never calibrated |
| RegimeComputer.RegimeCorrected | history_store.py:417-446 | as Regime, with the calibration's thresholds kept for its own value type |
| RegimeComputer.LatestRecordedPhaseStep | history_store.py:405-408 | one step of the backward scan |
| RegimeComputer.FindRecordedPhase | history_store.py:404-408 | the backward loop with its break finds the last recorded phase |
| RegimeComputer.DispatchMethod | history_store.py:414-446 | the sequence of method reassignments computes the dispatch of Transform |
| RegimeComputer.RateConfidence | history_store.py:449-457 | the initial confidence and its two downgrades compute ConfidenceOf |
| RegimeComputer.MeasureTrend | history_store.py:459-469 | the trend block computes TrendOf |
| RegimeComputer.ComputeRegime | history_store.py:388-480 | the step-by-step procedure returns exactly the record Regime specifies |
| RegimeProperties.ZScoreNeedsSpread | history_store.py:425-435 | zscore is reported exactly when it was resolved and its sample is not constant; a constant sample falls back to absolute, with the value equal to the score |
| RegimeProperties.ConfidenceRule | history_store.py:449-457 | Alta exactly when there are scores, the window holds min_days of them, and the reported zscore/percentile has its tier |
| RegimeProperties.TrendRule | history_store.py:459-469 | the record's trend and trend score are the trend rule on all scores |
| RegimeProperties.UnrecognisedKeepsPhase | history_store.py:370-372 | an unknown REGIME_METHOD has no value, keeps the previous phase, and is reported lower-cased |
| RegimeProperties.CalibratedWithoutArtifact | history_store.py:417-423 | an explicit calibrated with no valid artifact is the absolute transform against the absolute table |
| RegimeProperties.CalibrationPrecedence | history_store.py:374-376 | under auto a valid artifact selects calibrated however long the history; its value type is reported (absolute for a constant zscore sample) |
| RegimeProperties.PercentileValueInRange | history_store.py:437-441 | a percentile value lies in [0, 100] |
| RegimeProperties.ZScoreSign | history_store.py:425-433 | a z-score is positive exactly when the windowed mean lies above the sample mean |
| RegimeProperties.RegimeFields | history_store.py:447-480 | for any method, the phase is the hysteresis of the dispatched value from the previous phase against the dispatched table; the score is the windowed mean; value and method are the dispatch's |
| RegimeProperties.AbsoluteRegime | history_store.py:443-449 | under absolute: hysteresis of the windowed mean from the previous phase against the absolute table; confidence from the window size alone |
| RegimeProperties.LowStressFacts | scripts/check_history_store.py:50-56 | ten scores of 1: windowed mean 1, previous phase 1, trend delta 0 |
| RegimeProperties.RisingStressFacts | scripts/check_history_store.py:64-70 | scores 1,1,2,3,4,4,4,5,5,5: windowed mean 30/7, previous phase 3, trend delta 1 |
| RegimeProperties.LowStressScenario | scripts/check_history_store.py:50-61 | phase 1, stable trend, confidence Alta |
| RegimeProperties.RisingStressScenario | scripts/check_history_store.py:64-75 | phase 3 and a rising trend, with score 30/7 and trend score 1 |
| RegimeProperties.AsWrittenIgnoresCalibrationThresholds | history_store.py:417-446 | as written, two valid artifacts with the same value type give the same record whatever their thresholds |
| RegimeProperties.CalibrationThresholdsDiscarded | history_store.py:419-445 | one day at 2.0 with an absolute artifact at 0.5/1.0: phase 2 as written, phase 3 corrected |
| RegimeProperties.CorrectedHonoursCalibration | history_store.py:417-421 | corrected: the artifact's own thresholds classify the value of its own type |
| RegimeProperties.CorrectedAgreesWithoutCalibration | history_store.py:412-446 | corrected and as-written agree whenever calibrated was not selected |
| TelegramFormat.Trim | telegram_format.py:37 | a slice of the text with only whitespace cut off, neither starting nor ending with whitespace |
| TelegramFormat.Without | telegram_format.py:32-35 | only characters of the text remain, and none of the dropped ones |
| TelegramFormat.MarkerDeletionIsWithout | telegram_format.py:32-35 | the seven replacements delete exactly the characters `` ` ``, `*`, `_`, `#` |
| TelegramFormat.ReplaceDropped | telegram_format.py:32-34 | deleting a run of dropped characters first changes nothing once they are dropped |
| TelegramFormat.ReplaceCharIsWithout | telegram_format.py:33-35 | replacing one character by nothing deletes it |
| TelegramFormat.EmptyUnchanged | telegram_format.py:10-11 | the empty message comes back unchanged |
| TelegramFormat.NoMarkersRemain | telegram_format.py:32-37 | no backtick, asterisk, underscore or hash in the output, which neither starts nor ends with whitespace |
| TelegramFormat.ReplaceAbsent | telegram_format.py:13 | a replacement whose pattern cannot start anywhere changes nothing |
| TelegramFormat.EmphasisAbsent | telegram_format.py:16-21 | the bold and bold-italic passes leave text without their marker alone |
| TelegramFormat.EmphasisNoOpening | telegram_format.py:16-21 | a delimiter that starts nowhere converts nothing |
| TelegramFormat.ItalicAbsent | telegram_format.py:24-25 | the italic passes leave text without their marker alone |
| TelegramFormat.HeadingsAbsent | telegram_format.py:28 | without `#` the heading pass changes nothing |
| TelegramFormat.BulletsAbsent | telegram_format.py:29 | without `-`, `*`, `•` the bullet pass changes nothing |
| TelegramFormat.HeadingsMidLine | telegram_format.py:28 | away from a line start, with no newline ahead, no heading prefix is stripped |
| TelegramFormat.BulletsMidLine | telegram_format.py:29 | away from a line start, with no newline ahead, no bullet prefix is stripped |
| TelegramFormat.Unemphasised | telegram_format.py:10-37 | a message without `*`, `_`, `#`, `-`, `•`, `\r` only loses its backticks and edge whitespace |
| TelegramFormat.PlainTextTrimmed | tests/test_telegram_format.py:7-9 | plain text and already-HTML text (no Markdown characters) come back as their trimmed selves |
| TelegramFormat.BacktickContentKept | scripts/check_alert_format.py:45-46 | text in backticks or a code fence keeps its content, trimmed |
| TelegramFormat.DelimitedSpan | telegram_format.py:16-21 | one span D x D becomes open x close |
| TelegramFormat.BoldItalicConverted | scripts/check_alert_format.py:39-40 | `***x***` becomes `<b><i>x</i></b>` |
| TelegramFormat.BoldConverted | tests/test_telegram_format.py:11-14 | `**x**` becomes `<b>x</b>` |
| TelegramFormat.BoldNotBoldItalic | telegram_format.py:16-17 | `**x**` holds no bold-italic span |
| TelegramFormat.ItalicSpan | telegram_format.py:24 | the italic scan turns `*x*` into `<i>x</i>` |
| TelegramFormat.ItalicNotBold | telegram_format.py:16-21 | `*x*` holds no bold or bold-italic span |
| TelegramFormat.ItalicConverted | tests/test_telegram_format.py:11-15 | `*x*` becomes `<i>x</i>` when x neither starts nor ends with whitespace |
| TelegramFormat.HeadingStripped | scripts/check_alert_format.py:41-42 | a heading line of one to six hashes keeps only its text |
| TelegramFormat.BulletStripped | scripts/check_alert_format.py:43-44 | a `-` or `•` bullet line keeps only its text |
| TelegramFormat.NestedBulletKept | telegram_format.py:29 | a nested bullet line `- - x` becomes `- x`: one prefix is stripped per line, so a bullet prefix can remain |
| TelegramFormat.TrimLeadingSpaces | telegram_format.py:37 | leading whitespace makes no difference to the trimmed text |
| RunsTruth.LessIrreflexive | scripts/export_runs_truth.py:59 | no start text is later than itself |
| RunsTruth.LessTransitive | scripts/export_runs_truth.py:59 | the string order is transitive |
| RunsTruth.LessTotal | scripts/export_runs_truth.py:59 | two different start texts are ordered one way, never both |
| RunsTruth.SelectedSpec | scripts/export_runs_truth.py:48-60 | a day is chosen exactly when it has an eligible run; the run chosen is eligible, strictly later than every earlier run of its day, and no later run of its day is later |
| RunsTruth.ChosenIsLatest | scripts/export_runs_truth.py:59-60 | no eligible run of a day starts later than the one chosen |
| RunsTruth.UnstartedNeverChosen | scripts/export_runs_truth.py:50-56 | the chosen run has a start text and lies within [since, until] |
| RunsTruth.FirstOfTiesKept | scripts/export_runs_truth.py:59-60 | of two runs with equal start texts the first is kept |
| RunsTruth.Insert | scripts/export_runs_truth.py:61 | inserting a new day keeps the days increasing and adds exactly that day |
| RunsTruth.SortedKeys | scripts/export_runs_truth.py:61 | the dictionary's keys in strictly increasing order, exactly those keys |
| RunsTruth.Emit | scripts/export_runs_truth.py:61 | one entry per listed day, in that order: the dictionary's run for the day |
| RunsTruth.LatestRunPerDay | scripts/export_runs_truth.py:47-61 | strictly increasing days; each output run is an eligible input run, none later than any eligible run of its day; every day with an eligible run appears; each is the per-day choice of SelectedSpec |
| RunsTruth.LatestRunPerDaySpec | scripts/export_runs_truth.py:47-61 | the per-day choice is an eligible input run no eligible run of its day is later than, and every day with an eligible run is chosen |

## Left out

- Reading the environment, the file system and the clock is not modelled. SQLite, `gist` uploads and the other storage functions of `history_store.py` are left out too. Configuration and the calibration document arrive as parameters.
- `_get_float_env` and `_get_int_env` (the parsing of environment text, with fallback to the default) are not modelled. `Config` holds the values they would return.
- `_load_calibration`'s JSON parsing and its exceptions are not modelled. A missing, unreadable or malformed file is `None`.
- CalibrationLoader.LoadCalibration accepts only numbers and booleans as thresholds and treats any other threshold as absent, so the regime takes the uncalibrated branch. In the source, the `float()` calls at history_store.py:309-313 lie outside the `try`: a numeric string is converted, and a non-numeric string, a list or an object raises out of `compute_regime` (reached through line 374 under auto, or line 418 when calibrated is selected). A `value_type` that is a list or an object raises at line 303 in the source; the model treats it as absent too.
- The calibration is loaded twice in the source (history_store.py:374 and 418). The model loads it once, because the file does not change between the two reads.
- Floating point is modelled as exact reals. This affects `round(…, 2)` on the score, the trend score and the value, the exact zero variance of a constant sample, and the comparisons at the ±0.5 trend limits.
- RegimeComputer.Transform takes the square root as a parameter. `variance ** 0.5` is not modelled beyond positivity, so `std > 0` becomes `variance > 0`.
- MethodSelector.Lower lower-cases ASCII letters only. For recognising the five method names this is exact. An unrecognised non-ASCII REGIME_METHOD is reported with its other characters unchanged.
- RegimeComputer.Regime gives the empty record's `regime_value` as `None`, whereas the source's dictionary has no such key.
- generate_manual.py is static text and PDF rendering, so it is not modelled.
- Of scripts/export_runs_truth.py only `latest_run_per_day` is modelled. The `gh` subprocess, JSON stream decoding, log parsing, CSV writing and argument handling are not.
- RunsTruth.LatestRunPerDay takes each run's parsed day as given. `datetime.fromisoformat`, and the ValueError it raises on a malformed timestamp, are not modelled.
- The escaping, tag balancing and unsupported-tag removal in tests/test_telegram_format.py:17-36 are not implemented by `sanitize_telegram_html` itself, so they are not modelled.
- `sanitize_telegram_html(None)` is not modelled; messages are strings.
- TelegramFormat.BoldConverted, ItalicConverted and BoldItalicConverted are stated for a message that is a single emphasis span. The combined sample of scripts/check_alert_format.py is not evaluated as a whole.
- TelegramFormat.BacktickContentKept is stated for a message that is one backtick or fenced span with marker-free content; the result is that content trimmed.
- TelegramFormat.HeadingStripped is stated for a message of one heading line, and TelegramFormat.BulletStripped for a message of one bullet line. Messages of several lines are not covered by them.
- TelegramFormat.NoMarkersRemain does not state that no bullet prefix remains, because that does not hold: TelegramFormat.NestedBulletKept shows `- - x` becoming `- x`. The check at scripts/check_alert_format.py:30-31 only holds for the sample it is run on.

## Findings

| source | as written | input that shows it | evidently intended | confidence | as-written member | corrected member |
|---|---|---|---|---|---|---|
| history_store.py:419-445 | the calibration's thresholds assigned at line 421 are always overwritten by the dispatch that follows (lines 433, 441, 445), so a calibration only chooses the value type | history `[2.0]`, REGIME_METHOD auto, artifact `value_type` absolute with thresholds 0.5/0.5/1.0/1.0: phase 2 against the default 2.0/4.0 | a calibration is applied with its own threshold set: phase 3 for that input | high (not executed) | RegimeProperties.CalibrationThresholdsDiscarded | RegimeProperties.CorrectedHonoursCalibration |

The corrected definition is `RegimeComputer.RegimeCorrected`.
`RegimeProperties.CorrectedAgreesWithoutCalibration` proves that it agrees
with `RegimeComputer.Regime` whenever "calibrated" is not selected.
`RegimeComputer.Regime` and `RegimeComputer.ComputeRegime` keep the
as-written behaviour.

Two facts about the code that the model keeps:

- The percentile rank reaches 100 when every sample value lies below the
  score (history_store.py:362-366).
- The windowed mean of the rising-stress check is 30/7 (about 4.29), the mean
  of its last seven scores (scripts/check_history_store.py:64-70).
