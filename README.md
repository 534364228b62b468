# Weight tracker: Kalman smoothing of spreadsheet weights

A Dafny model of the weight-tracking pipeline of a small static web page
(`main.js`). The user picks a spreadsheet of dated body-weight
measurements. The page then:

- reads the rows of its first sheet;
- resolves the date and weight columns by alias (`Date`/`date`/`日期`,
  `Weight`/`weight`/`体重`);
- drops rows whose weight does not coerce to a finite number;
- refuses to go on with fewer than two weights;
- smooths the weights with a one-dimensional Kalman filter under a
  random-walk model (Q = 0.02, R = 0.25, P0 = 1, starting from the first
  measurement);
- shows the latest raw value, the latest filtered value and the count;
- draws both series against the date labels. When any label is blank or
  the text `undefined`, every label is replaced by `1..n`.

The model is split into modules:

| module | file | what it holds |
|---|---|---|
| `Wrappers` | `wrappers.dfy` | `Option` |
| `Kalman` | `kalman.dfy` | The filter step as functions, the recursion `Run`/`Filter` as its specification, and `Kalman1D`, the imperative loop of `kalman1D` proved equal to it. Also lemmas on gain, variance and estimates. |
| `Ingestion` | `ingestion.dfy` | JavaScript cell values (`undefined`, `null`, text, number, boolean), the `??` alias chains, `Number`/`String` coercion, the per-row outcome `Extract`, the kept rows `Kept`, and `Ingest`, the imperative loop of `parseExcelFile` proved against them. |
| `Presentation` | `presentation.dfy` | The all-or-nothing label fallback and the decimal index labels `"1".."n"`. |
| `Orchestrator` | `orchestrator.dfy` | The minimum-data gate and summary selection as the pure `Summarize`/`Process`. Also the class `Page`, holding the status line, the summary fields and the single chart handle, with the change handler `OnWeightFile` and `RenderWeightChart`. |

Numbers are exact reals standing in for JavaScript doubles. Two
conversions are parameters:

- `parse`: JavaScript's parsing of text by `Number`, with `None` for a
  non-finite result.
- `showNumber`: the decimal rendering of a number by `String`.

The spreadsheet decoding is an input. The handler receives a `Selection`:
no file, an unreadable file, or the decoded rows.

Two behaviours of the code are modelled as written:

- **Null `Weight` cell.** The alias chains repeat `r["日期"]` / `r["Date"]` and `r["体重"]` / `r["Weight"]`, so each chain ends on the `Date` (respectively `Weight`) key. When `weight` and `体重` are null or absent, a `null` in the `Weight` column therefore reaches `Number` and becomes a weight of 0, while a `null` in the `体重` column (with `Weight` and `weight` absent) falls through to the absent `Weight` and the row is dropped (`LocalizedAliases`, `NullWeightCell`).
- **Blank weight cell.** A blank weight cell (the sheet decoder's default `""`) is kept as a weight of 0, because `Number("")` is 0 (`BlankWeightKept`).

Under the defaults, the measurements 70 and 71 filter to 70 and exactly
70 + 2804/5979 ≈ 70.46897 (`TwoPointTrace`).

## Model

| member | source | states |
|---|---|---|
| Kalman.Kalman1D | main.js:50-72 | The loop returns exactly `Filter(zs, q, r, x0, p0)`: `[]` for no measurements, otherwise one estimate per measurement, in order, starting from `x0` or else `zs[0]`. |
| Kalman.PredictUpdate | main.js:59-67 | One loop iteration (predict `P+Q`, gain, move `x`, shrink `P`) produces exactly the state `Step` specifies. |
| Kalman.Filter | main.js:50-58 | The output has one estimate per measurement, so the empty input gives the empty output. |
| Kalman.Gain | main.js:65 | The gain `P'/(P'+R)` lies in [0, 1), and is strictly positive when the predicted variance is. |
| Kalman.GainComplement | main.js:65-67 | `(1 - K)·(P'+R) = R`: the weight kept on the prior estimate is R/(P'+R). |
| Kalman.Posterior | main.js:67 | The updated variance `(1-K)·P'` lies in [0, R), and is strictly positive when P' is. |
| Kalman.PosteriorClosedForm | main.js:65-67 | The updated variance equals R·P'/(P'+R). |
| Kalman.Step | main.js:62-67 | One step keeps the variance in [0, R), and positive when P+Q is positive. |
| Kalman.StepBetween | main.js:66 | The new estimate lies between the previous estimate and the measurement, strictly when they differ and P+Q > 0. |
| Kalman.Run | main.js:58-70 | The recursion yields one state per measurement, each with variance in [0, R). |
| Kalman.RunStep | main.js:58-70 | State `i` of a run is exactly one `Step` from state `i-1` (or the start) on measurement `i`. |
| Kalman.StepwiseBounds | main.js:62-67 | With Q > 0 and R > 0, at every step 0 < K < 1 and the variance is the posterior R·P'/(P'+R), strictly inside (0, R): it never diverges. |
| Kalman.VarianceIndependentOfMeasurements | main.js:62-67 | The variance sequence depends only on Q, R, P0 and the number of measurements, never on their values. |
| Kalman.PosteriorMonotone | main.js:67 | A larger predicted variance never gives a smaller updated variance. |
| Kalman.VarianceNonIncreasing | main.js:62-67 | Once one step does not raise the variance, no later step does. |
| Kalman.LargeInitialVarianceNonIncreasing | main.js:50-67 | From an initial variance of at least R (the defaults P0 = 1 ≥ R = 0.25 included), no step raises the variance. |
| Kalman.RunConstant | main.js:66 | Measurements equal to the current estimate leave the estimate unchanged at every step. |
| Kalman.FilterConstant | main.js:54-66 | Without `x0`, a constant input comes back exactly, at every index. |
| Kalman.RunWithin | main.js:66 | If the start and every measurement lie in [lo, hi], so does every state's estimate. |
| Kalman.FilterWithin | main.js:54-70 | If `x0` (when given) and all measurements lie in [lo, hi], every output does. |
| Kalman.FilterConvex | main.js:66 | Each output lies between the previous estimate (or the start) and the current measurement, strictly when Q > 0 and they differ. |
| Kalman.TwoPointTrace | main.js:50-72 | Under the defaults, [70, 71] filters to [70, 70 + 2804/5979]. |
| Ingestion.Ingest | main.js:113-129 | The loop returns dates and weights of equal length, index-aligned, equal to the dates and weights of `Kept(rows)`. |
| Ingestion.ToNumber | main.js:120-121 | `Number(w)` is non-finite only for `undefined` or text that does not parse; `undefined` gives NaN, `null` gives 0, booleans 1 or 0, numbers themselves, and text whatever `parse` gives. |
| Ingestion.ToText | main.js:125 | `String(v)` case by case: text is itself, a number (such as a date serial the decoder returns as a number) is its decimal rendering `showNumber(n)`, booleans are `"true"`/`"false"`, and `undefined`/`null` are `"undefined"`/`"null"`. |
| Ingestion.Extract | main.js:117-126 | One iteration of the loop body: no contract of its own; stated by `KeptSnoc` (its result is what the loop appends), `KeptSound`, `NullWeightCell`, `BlankWeightKept`, `MissingWeightSkipped`, `MissingDateLabel` and `LocalizedAliases`. |
| Ingestion.Kept | main.js:116-127 | The specification `Ingest` is proved against: no more measurements than rows; its behaviour is stated by `KeptSnoc`, `KeptAppend`, `KeptAll` and `KeptSound`. |
| Ingestion.CoalesceKeys | main.js:117-118 | The `??` alias chain as a right fold: no contract of its own; stated by `CoalesceKeysFirst`, `CoalesceKeysAllNullish` and `CoalesceKeysLeftGrouping`. |
| Ingestion.Label | main.js:123-125 | `String(d ?? "")` is `""` for a null or undefined date, the text itself for a text date, the decimal rendering `showNumber(n)` for a numeric date serial, and `"true"`/`"false"` for a boolean. |
| Ingestion.CoalesceKeysFirst | main.js:117-118 | An alias chain yields the value of the first key whose value is neither null nor undefined. A present blank `""` therefore wins over later aliases. |
| Ingestion.CoalesceKeysAllNullish | main.js:117-118 | When every alias is null or undefined, the chain yields the value of its last key. |
| Ingestion.CoalesceAssociative | main.js:117-118 | `??` is associative on any three values. |
| Ingestion.CoalesceKeysSnoc | main.js:117-118 | The right fold equals `??` of the chain without its last key and that last key. |
| Ingestion.CoalesceKeysLeftGrouping | main.js:117-118 | On every key list, the chain grouped to the left as JavaScript does (`CoalesceKeysLeft`) equals the model's right fold. |
| Ingestion.KeptSnoc | main.js:116-127 | One more row appends its measurement, if it has one, at the end. |
| Ingestion.KeptAppend | main.js:116-127 | Ingestion distributes over concatenation: the row order is kept. |
| Ingestion.KeptAll | main.js:120-126 | When every row's weight is finite, nothing is skipped: measurement `i` is the one from row `i`. |
| Ingestion.KeptSound | main.js:120-121 | Every kept measurement comes from some row with a finite weight. Rows without one contribute nothing. |
| Ingestion.LocalizedAliases | main.js:117-118 | A row keyed `日期`/`体重` ingests exactly like the same row keyed `Date`/`Weight`, unless the weight cell is `null`. |
| Ingestion.NullWeightCell | main.js:118-121 | A row whose only cell is a null `Weight` is kept as 0 with label `""`; a row whose only cell is a null `体重` is dropped. |
| Ingestion.BlankWeightKept | main.js:110-121 | A blank `Weight` cell is kept with weight 0, not skipped. |
| Ingestion.MissingWeightSkipped | main.js:118-121 | A row with none of the weight columns is skipped (`Number(undefined)` is NaN). |
| Ingestion.MissingDateLabel | main.js:117-125 | A kept row with none of the date columns gets the label `""`. |
| Presentation.NatToString | main.js:161 | `String(i + 1)` is a non-empty string of decimal digits without a leading zero. |
| Presentation.NatToStringRoundTrip | main.js:161 | Reading the digits of `String(n)` back gives `n`. |
| Presentation.IndexLabels | main.js:161 | The fallback labels number `n` and are all usable (non-empty, not `"undefined"`). |
| Presentation.IndexLabelsSpell | main.js:161 | Fallback label `i` spells the number `i + 1`. |
| Presentation.IndexLabelsDistinct | main.js:161 | The fallback labels are pairwise distinct. |
| Presentation.Usable | main.js:161 | The test `x && x !== "undefined"` on a string label: no contract of its own; used by `ResolveLabels`, whose contract states the all-or-nothing rule in its terms. |
| Presentation.ResolveLabels | main.js:161 | The dates come back unchanged exactly when all are usable, and otherwise are replaced wholesale by `"1".."n"`. The result has the weights' length and every label is usable. |
| Presentation.ResolveLabelsIdempotent | main.js:161 | Resolving the labels again changes nothing. |
| Presentation.BlankLabelsFallBack | main.js:161 | `["", "", ""]` becomes `["1", "2", "3"]`. |
| Orchestrator.Summarize | main.js:148-161 | Insufficient exactly when there are fewer than 2 weights. Otherwise: the count is `n`; the filtered series is the default filter of the weights, with one estimate per weight; the latest values are `weights[n-1]` and `kf[n-1]`; and the labels are the resolved dates, all usable. |
| Orchestrator.Process | main.js:146-161 | The pipeline from rows to summary: insufficient exactly when fewer than two rows are kept; otherwise the count is the number of kept rows and the raw series their weights. |
| Orchestrator.LatestWithinRange | main.js:154-157 | The reported filtered value lies within any range holding all the weights. |
| Orchestrator.ConstantWeights | main.js:154-157 | With all weights equal, the filtered latest value equals the raw latest value. |
| Orchestrator.Analyze | main.js:146-161 | Ingestion, the gate, the filter and the label fallback produce exactly `Process(rows)`. |
| Orchestrator.Page.constructor | main.js:39 | The page starts with no chart and no summary. |
| Orchestrator.Page.RenderWeightChart | main.js:74-83 | Without a canvas nothing changes. Otherwise any previous chart is destroyed before the new one is created from the labels and the two series. No other field changes. |
| Orchestrator.Page.OnWeightFile | main.js:139-168 | No file: nothing changes. Unreadable file: failure note. Fewer than 2 weights: guidance note. In all three cases the summary fields and the chart keep their previous values. Otherwise the summary fields are set from `Process(rows)`, the success note is shown, and, when a canvas exists, the previous chart is released and the new one drawn. |

## Left out

- The toast, year and confetti parts of the page (main.js:1-36) are only DOM effects and animation with random placement.
- Reading the file and decoding the spreadsheet (`arrayBuffer`, `XLSX.read`, `sheet_to_json`) are asynchronous I/O and a foreign library. The handler receives the decoded rows, or the fact that decoding failed, as its `Selection` input.
- JavaScript's parsing of text by `Number` and its rendering of numbers by `String` are the parameters `parse` and `showNumber`. `BlankWeightKept` assumes only that `parse("")` is 0.
- `formatKg` and `toFixed(1)` are floating-point formatting. The page fields hold the numbers rather than their display text.
- Chart.js drawing is not modelled. `Page.chart` records only the data handed to it, and a ghost `destroyed` list records the released handles.
- `setText` on a missing element is not modelled, nor the reset of the input's value in `finally`. The wording of the notes is reduced to the `Status` values.
- The handler's catch is modelled only for failures while reading and decoding.
- The race between overlapping file selections is not modelled (no concurrency).
- IEEE-754 rounding, NaN and infinities are not modelled, neither in the filter nor in the cells: `Value.Num` holds an exact real, so a cell holding NaN or ±Infinity (which main.js:121 would drop) cannot be expressed.
- `Kalman.Filter`, `Kalman.Kalman1D`: require Q ≥ 0, R > 0 and P0 ≥ 0; other configurations are not modelled, because the only caller (main.js:154) passes Q = 0.02, R = 0.25 and the default P0 = 1.
- `Kalman.PredictUpdate` is a separate method for the loop body, which `kalman1D` writes inline.
- Convergence of the variance to its steady state is not proved. The model proves that it stays within (0, R) and, from P0 ≥ R, never increases (`Kalman.LargeInitialVarianceNonIncreasing`).
