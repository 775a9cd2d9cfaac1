# Energy market tracker — a Dafny model of its core

energy-market-tracker collects electricity day-ahead prices from several
upstream providers: ENTSO-E, the Elexon BMRS API, EIA and Nord Pool. When
none of them answers, it falls back to a synthetic series. It puts the
result onto a canonical half-hourly grid and computes rolling volatility,
anomaly flags, peak/off-peak and seasonal statistics, risk metrics and
model-selection results for a dashboard.

This project models the deterministic core of that system in Dafny and
proves what it promises. The core covers:

- the Elexon client's payload classification, endpoint templates and
  stream queries;
- the source failover;
- the provider adapters' record mapping;
- the canonicaliser;
- the analytics;
- the feature builders;
- the data-explorer glue;
- the loader's column standardisation;
- the mock generator;
- the configuration parsing.

Conventions used throughout:

- Timestamps are integer minutes since the epoch, UTC. A day is 1440
  minutes and 1970-01-01 was a Thursday.
- JSON is a datatype whose objects are ordered sequences of key/value
  pairs, because the code depends on dict iteration order.
- Tables are a list of column names plus rows of cells.
- Prices and statistics are exact `real`s. Where the code takes a square
  root, the model keeps the variance: a z-score `d / sqrt(v) > t` is
  compared as `d * d > t * t * v`.
- NaN and infinities are explicit datatype constructors.
- Everything outside the core is a parameter of the function or method
  that uses it: the network, the clock, the random generator,
  `pd.to_datetime` on text, the casts, and the adapters of the failover.

Modules, one per file:

| file | module | models |
|---|---|---|
| `wrappers.dfy` | `Wrappers` | Option and Result |
| `strings.dfy` | `Strings` | `lower`, `split`, `strip`, `join`, `str(int)` |
| `json.dfy` | `Json` | JSON values, `get` and `update` on dicts |
| `calendar.dfy` | `Calendar` | `.dt.hour`, `.dt.dayofweek`, `.dt.month`, `Timedelta.days` |
| `frames.dfy` | `Frames` | tables, cells and the time-column rule |
| `reals.dfy` | `Reals` | products of reals kept as a function, with their bounds |
| `rolling.dfy` | `Rolling` | mean, min, max and sample variance; `rolling(window=w, min_periods=1)` |
| `config.dfy` | `Config` | `src/config.py` |
| `elexon_client.dfy` | `ElexonClient` | `src/fetching/elexon_client.py` |
| `mock_data.dfy` | `Prices`, `MockData` | price frames; `src/utils/mock_data_generator.py` |
| `price_adapters.dfy` | `PriceAdapters` | `fetch_elexon_prices`, `fetch_day_ahead_prices` |
| `price_fetchers.dfy` | `PriceFetchers` | `get_day_ahead_prices` |
| `transform.dfy`, `canonical.dfy` | `Transform`, `Canonical` | `src/transformation/data_transform.py` |
| `price_analyzer.dfy` | `PriceAnalyzer` | `src/analysis/price_analyzer.py` |
| `volatility_risk.dfy` | `VolatilityRisk` | the computational parts of `src/categories/volatility_risk.py` |
| `feature_builder.dfy` | `FeatureBuilder` | `src/feature_engineering/feature_builder.py` |
| `data_loader.dfy` | `DataLoader` | `src/data_loader.py` |
| `data_explorer.dfy` | `DataExplorer` | the data handling inside `show` of `src/categories/data_explorer.py` |

Where the code changes state step by step, the model does too. These are
methods with loops and invariants, each proved against a function that
specifies it:

- the failover loop;
- the adapters' record loop;
- the historical day loop;
- the retry loop;
- the query-building insertions;
- the mock generator;
- the nested-data expansion;
- the window validation.

The feature builders mutate the frame they are given, so the frame is a
class `FeatureBuilder.FeatureFrame` whose methods update a map of columns
in place.

## Model

| member | source | states |
|---|---|---|
| Config.ParsePreferredSources | src/config.py:40-41 | one entry per comma-separated piece, in order: entry i is the i-th piece with the white space at both ends stripped |
| Config.PreferredSourcesRoundTrip | src/config.py:40-41 | a list written without white space is recovered exactly by joining the parsed entries with commas |
| Config.ParseNames | src/config.py:40-41 | names without commas or white space, joined with commas, parse back to the same names |
| Config.ParseSpacedNames | src/config.py:40-41 | names without commas but with white space around them, joined with commas, parse to the stripped names in order |
| Config.SpacedPairParses | src/config.py:40-41 | a list written with a space after the comma, such as "entsoe, elexon", parses to the two names |
| Config.DefaultPreferredOrder | src/config.py:40-41 | the default string parses to entsoe, elexon, eia, nordpool |
| Config.WithTrailingSlash | src/config.py:69-72 | a non-empty URL ends in '/' afterwards; the empty URL stays empty; the original is a prefix and at most one character is added; a URL already ending in '/' is unchanged |
| Config.TrailingSlashIdempotent | src/config.py:69-72 | normalising twice equals normalising once |
| Config.GetEnvVarAsWritten | src/config.py:57-63 | as written: the cast value when the cast succeeds, and otherwise the raw, uncast default |
| Config.UncastDefaultReturned | src/config.py:57-66 | with value "abc", default "24" and an int cast, the function as written returns the string "24", not the number 24 |
| Config.GetEnvVar | src/config.py:57-63 | corrected: the cast of the variable when that cast succeeds, and the cast default otherwise; never an uncast value |
| ElexonClient.Template | src/fetching/elexon_client.py:15-353 | a key is listed exactly when the subset holds it, and its template is "/" + key |
| ElexonClient.NewClient | src/fetching/elexon_client.py:363-367 | construction fails exactly when neither the given key nor the configured key is truthy; the given key wins over the configured one |
| ElexonClient.FirstNonEmptyList | src/fetching/elexon_client.py:403-416 | the first value in key order that is a non-empty list, or none when no value is one |
| ElexonClient.PayloadRows | src/fetching/elexon_client.py:375-441 | a list payload yields its items; `data` as a list yields that list, even an empty one; `data` as an object yields its first non-empty list value, or else the object itself; an object without `data` yields itself exactly when a non-empty key lies outside the six metadata keys; any other shape, and any HTTP or decode error, yields no rows |
| ElexonClient.FormatReportsFirstMissing | src/fetching/elexon_client.py:459-462 | formatting succeeds exactly when every placeholder has a value; otherwise it reports the first missing placeholder |
| ElexonClient.FormatIgnoresExtraParams | src/fetching/elexon_client.py:459-462 | parameters that agree on the template's own fields format it alike, so extra path parameters are ignored |
| ElexonClient.FormatWithoutFields | src/fetching/elexon_client.py:459-462 | a template without braces has no fields and formats to itself |
| ElexonClient.FormatLiteralPrefix | src/fetching/elexon_client.py:459-462 | a brace-free prefix is copied through unchanged |
| ElexonClient.RequestPath | src/fetching/elexon_client.py:453-462 | an unknown key gives KeyError; a missing placeholder gives ValueError naming it; otherwise "/" + the formatted key |
| ElexonClient.BuildRequest | src/fetching/elexon_client.py:443-464 | fails exactly when the path does; otherwise the URL is the base URL plus the path, the client's key is sent, and absent parameters count as empty maps |
| ElexonClient.PathParamsIgnoredWithoutFields | src/fetching/elexon_client.py:453-464 | for a key whose template has no placeholders, whatever path parameters are passed, the request is base URL + "/" + key |
| ElexonClient.CallEndpoint | src/fetching/elexon_client.py:443-464 | the build error is raised before any request; otherwise the result is the classified response to the built request |
| ElexonClient.WireNamesDistinct | src/fetching/elexon_client.py:493-505 | no two stream arguments share a wire name, so `from_` sent as "from" clashes with nothing |
| ElexonClient.PutIfTruthy | src/fetching/elexon_client.py:493-504 | the key is present exactly when the value is truthy, holding that value; every other key is unchanged |
| ElexonClient.DatasetStreamQuery | src/fetching/elexon_client.py:493-505 | the query holds exactly the truthy string arguments; `settlementPeriod` is included whenever it is given, 0 included |
| ElexonClient.WireQuery | src/fetching/elexon_client.py:493-505 | every argument is sent under its wire name and nothing else is sent |
| ElexonClient.GetDatasetStream | src/fetching/elexon_client.py:476-507 | for any dataset name, a name whose stream key is not listed raises KeyError; otherwise the result is the classified response to a request at base URL + "/datasets/<name>/stream" carrying exactly the stream query |
| ElexonClient.ListedDatasetKeyBraceFree | src/fetching/elexon_client.py:15-52 | every listed key starting with "d" (the dataset and demand keys) has no placeholder, so a listed stream key formats to itself |
| Prices.EmptyPriceFrame | src/analysis/price_analyzer.py:107 | the empty frame has exactly the columns `date` and `price_€/MWh` and no rows |
| MockData.UniformBetween | src/utils/mock_data_generator.py:14 | a uniform draw lies between the two bounds, in whichever order they are given |
| MockData.GenerateMockPriceData | src/utils/mock_data_generator.py:6-18 | exactly 24 rows with columns `date`, `price_€/MWh`; row i is at midnight of the given day (or of now) plus i hours, priced by the i-th draw inside the configured band |
| MockData.MockSeriesOnOneDay | src/utils/mock_data_generator.py:9-13 | the rows are one hour apart, strictly increasing, all on the requested day, with row i at hour i |
| PriceAdapters.ItemRecord | src/fetching/price_fetchers.py:77-92 | a non-object item raises; an item without a non-null period and price yields nothing; a record is `settlementDate` (or the request date) + (period − 1) hours at the converted price |
| PriceAdapters.ElexonRecords | src/fetching/price_fetchers.py:73-92 | the loop completes exactly when no item raises; otherwise it raises the exception of the first raising item, every item before it having converted |
| PriceAdapters.FailsFirstShift | src/fetching/price_fetchers.py:73-92 | after an item that converts, the first failure among the remaining items is the first failure of all of them |
| PriceAdapters.ElexonRecordsPerEligibleItem | src/fetching/price_fetchers.py:73-92 | on success there is one record per eligible item, in order, each being that item's record |
| PriceAdapters.CollectRecords | src/fetching/price_fetchers.py:73-92 | the append loop computes ElexonRecords: one record per eligible item in order, or the first raising item's exception |
| PriceAdapters.FetchElexonPrices | src/fetching/price_fetchers.py:48-104 | no key, a failed request or a non-list payload gives the empty two-column frame; a conversion ValueError gives the empty frame; any other exception propagates; otherwise the frame of the records |
| PriceAdapters.PointRows | src/fetching/price_fetchers.py:37-39 | one record per point, at midnight + (position − 1) hours, at the point's price |
| PriceAdapters.FetchDayAheadPrices | src/fetching/price_fetchers.py:12-45 | always returns a frame with columns `date`, `price_€/MWh`; it is empty without a key or when the request fails; otherwise it has one row per point on the requested day, and positions 1..24 give hours 0..23 |
| PriceFetchers.KnownSource | src/fetching/price_fetchers.py:221-226 | a name selects a source exactly when it is that source's key in the map |
| PriceFetchers.Pick | src/fetching/price_fetchers.py:233-245 | at most one candidate per name: the named source when it is known and has a key, or is Nord Pool |
| PriceFetchers.AutoCandidates | src/fetching/price_fetchers.py:230-245 | a source is a candidate exactly when it is listed as preferred and is usable |
| PriceFetchers.AutoCandidatesAppend | src/fetching/price_fetchers.py:230-245 | candidates follow the preference order: those of a concatenated list are the concatenation of the candidates |
| PriceFetchers.Candidates | src/fetching/price_fetchers.py:228-253 | "auto"/"all" (any case) gives the preference-ordered candidates; any other mode gives at most the one source so named, and none for an unrecognised name |
| PriceFetchers.BuildCandidates | src/fetching/price_fetchers.py:228-253 | the appending loops build exactly the candidate list |
| PriceFetchers.ErrorLogAppend | src/fetching/price_fetchers.py:267-272 | the error lines of consecutive attempts concatenate in attempt order |
| PriceFetchers.ErrorLogOne | src/fetching/price_fetchers.py:267-272 | one attempt logs one line when it raises and none otherwise; empty results are not errors |
| PriceFetchers.Failover | src/fetching/price_fetchers.py:259-272 | candidates are tried as a prefix of the list; a hit is the first non-empty frame and comes from the last source tried; without a hit every candidate was tried; errors are logged in try order |
| PriceFetchers.FailoverStopsAtFirstHit | src/fetching/price_fetchers.py:260-266 | when candidate k is the first to return rows, exactly candidates 0..k are called and k's frame wins |
| PriceFetchers.FailoverWithoutHit | src/fetching/price_fetchers.py:259-276 | when no candidate returns rows, all are called and none wins |
| PriceFetchers.TryInOrder | src/fetching/price_fetchers.py:259-272 | the loop, with its early return, produces exactly the failover run: the sources tried, the winning frame and the error list |
| PriceFetchers.GetDayAheadPrices | src/fetching/price_fetchers.py:210-276 | mode "mock" returns the mock series without trying any source; otherwise the first non-empty candidate frame, or the mock series when there are no candidates or none returns rows |
| Transform.SortRows | src/transformation/data_transform.py:15 | sorting gives a permutation of the rows in ascending order of the time column |
| Transform.SortRowsOfAscending | src/transformation/data_transform.py:15 | rows already in ascending order are left as they are |
| Transform.NormalizeTimestamp | src/transformation/data_transform.py:7-16 | without a time column the table is unchanged; otherwise the rows are a permutation of the converted rows, in ascending order of the time column, with the same columns |
| Transform.DropDuplicateTimes | src/transformation/data_transform.py:28 | each timestamp is kept once, holding the cells of its first occurrence |
| Transform.SlotCount | src/transformation/data_transform.py:29 | the number of 30-minute slots from the earliest timestamp to the latest |
| Transform.Reindex | src/transformation/data_transform.py:29 | the grid from the earliest timestamp, one slot per 30 minutes up to the latest; every row has full width |
| Transform.DedupedGrid | src/transformation/data_transform.py:28-29 | dropping duplicates changes neither the grid bounds nor any slot |
| Transform.FillMissingGaps | src/transformation/data_transform.py:19-31 | without a time column the table is unchanged; with one, the result is an error exactly when some time cell is not an instant (see "## Left out"), and otherwise the time column comes first and the rows are the reindexed grid |
| Canonical.ReindexSlots | src/transformation/data_transform.py:29 | slot k holds the instant min + 30k followed by the cells of the first entry there, or missing cells when there is none |
| Canonical.EntryOnGrid | src/transformation/data_transform.py:29 | an input row on the grid keeps its values in its slot |
| Canonical.ReindexHalfHourly | src/transformation/data_transform.py:29 | reindexed rows are on a 30-minute grid from their first instant |
| Canonical.HalfHourlySpacing | src/transformation/data_transform.py:29 | half-hourly rows are ascending, each exactly 30 minutes after the one before |
| Canonical.TransformData | src/transformation/data_transform.py:34-40 | without a time column the table is unchanged; otherwise the time column comes first and the rows are half-hourly |
| Canonical.ReindexOfGrid | src/transformation/data_transform.py:29 | rows already on the grid are their own reindexing |
| Canonical.NormalizeOfSorted | src/transformation/data_transform.py:7-16 | normalising a table whose timestamps are already instants in ascending order changes nothing |
| Canonical.TransformIdempotent | src/transformation/data_transform.py:34-40 | applying transform_data to its own output returns that output |
| Rolling.Window | src/analysis/price_analyzer.py:22-25 | the window at row i covers rows max(0, i − w + 1)..i and is never empty |
| Rolling.RollingRange | src/analysis/price_analyzer.py:23-24 | window max − window min is at least 0, and is 0 for a one-row window |
| Rolling.RollingMean | src/analysis/price_analyzer.py:25 | the rolling mean lies between the window's extremes, and is the row itself for w = 1 |
| Rolling.SampleVariance | src/analysis/price_analyzer.py:22 | undefined below two values, otherwise at least 0 |
| Rolling.ConstantColumn | src/analysis/price_analyzer.py:45-48 | equal values have mean that value and, with two or more of them, variance 0 |
| PriceAnalyzer.VolatilityRatio | src/analysis/price_analyzer.py:26-27 | NaN (undefined std, or 0 / 0) becomes 0; a non-zero std over a zero mean stays +∞; otherwise std over mean |
| PriceAnalyzer.AnalyzePriceVolatility | src/analysis/price_analyzer.py:9-28 | a missing column gives an empty frame; empty input gives the four named columns and no rows; a window below 1 raises; otherwise one row per input row, with `date` first. Row i's std is the sample variance of the window of rows max(0, i − w + 1)..i, undefined exactly at row 0 or for w = 1. Its range is the window's max − min, which is ≥ 0. Its ratio is VolatilityRatio of that std and the window's rolling mean. For w = 1 the range is 0 and the ratio 0 |
| PriceAnalyzer.VolatilityRowAt | src/analysis/price_analyzer.py:21-26 | one output row: the window's sample variance, max − min, and VolatilityRatio against the rolling mean |
| PriceAnalyzer.FlatPricesNoVolatility | src/analysis/price_analyzer.py:21-26 | with every price equal to c, every range is 0, every std is 0 or undefined, and every ratio is 0 or 0 / c |
| PriceAnalyzer.ZScores | src/analysis/price_analyzer.py:48-53 | the z-score is 0 for variance 0, otherwise the scaled deviation; a row is flagged iff abs(z) > threshold |
| PriceAnalyzer.DetectPriceAnomalies | src/analysis/price_analyzer.py:30-54 | no price column gives an empty frame; rows and their order are preserved; fewer than two rows are never flagged |
| PriceAnalyzer.AnomalyCriterion | src/analysis/price_analyzer.py:44-53 | row i is flagged exactly when the variance is non-zero and the squared deviation exceeds threshold² × variance |
| PriceAnalyzer.FlatPricesNoAnomaly | src/analysis/price_analyzer.py:48-49 | equal prices are never flagged |
| PriceAnalyzer.AnomalyThresholdMonotone | src/analysis/price_analyzer.py:53 | raising the threshold never flags more rows |
| PriceAnalyzer.PeakPartition | src/analysis/price_analyzer.py:66-72 | every row falls in exactly one of peak and off-peak |
| PriceAnalyzer.CalculatePeakOffPeakRatio | src/analysis/price_analyzer.py:56-81 | NaN when a column is missing, the input is empty, or either partition is empty; +∞ when the off-peak mean is 0; otherwise the ratio of the means |
| PriceAnalyzer.Days | src/analysis/price_analyzer.py:89-103 | the days start, start + 1 day, … up to end inclusive |
| PriceAnalyzer.Collected | src/analysis/price_analyzer.py:92-101 | the kept frames are exactly the non-empty frames the days returned; empty results and exceptions are skipped |
| PriceAnalyzer.CollectedPosition | src/analysis/price_analyzer.py:92-101 | the frame of a day that returned rows comes right after the frames kept for the days before it, so the frames are kept in day order |
| PriceAnalyzer.UnionColumns | src/analysis/price_analyzer.py:106 | the concatenated columns begin with the first frame's and are the union of both frames' columns |
| PriceAnalyzer.HistoricalResult | src/analysis/price_analyzer.py:105-107 | nothing collected gives the empty two-column frame. Otherwise the row count is the sum of the frames' counts, and row m of frame j sits at the row count of frames 0..j−1 plus m, so the rows are frame 0's, then frame 1's, and so on. The first frame's columns come first |
| PriceAnalyzer.ConcatAt | src/analysis/price_analyzer.py:106 | `pd.concat` puts row m of frame j after all rows of the frames before it |
| PriceAnalyzer.ConcatRows | src/analysis/price_analyzer.py:106 | every row of every frame is placed as ConcatAt states |
| PriceAnalyzer.FetchHistoricalPrices | src/analysis/price_analyzer.py:83-107 | fetch is called once per day from start to end inclusive, in order, and the result is what those calls collect |
| PriceAnalyzer.HourlyPattern | src/analysis/price_analyzer.py:129 | the keys are exactly the hours present, and each value is the mean price of that hour's rows: their sum over their count, between their minimum and maximum |
| PriceAnalyzer.HoursPresent | src/analysis/price_analyzer.py:124 | hours present are within 0..23 and are exactly those of some row |
| PriceAnalyzer.DailyPattern | src/analysis/price_analyzer.py:130 | the keys are exactly the day names present, and each value is the mean price of that day's rows: their sum over their count, between their minimum and maximum |
| PriceAnalyzer.MeanOrNaN | src/analysis/price_analyzer.py:135-136 | NaN exactly for an empty group; otherwise the group's sum of prices over its count, between its minimum and maximum |
| PriceAnalyzer.WeekendRatio | src/analysis/price_analyzer.py:138-140 | defined exactly when both averages exist and the weekday average is non-zero, and then it is their quotient |
| PriceAnalyzer.AnalyzeSeasonalPatterns | src/analysis/price_analyzer.py:109-152 | a missing column gives the empty result; weekend means day of week ≥ 5; the pattern keys are the hours and day names present, and each pattern value is the mean price of its hour's or day's rows; the weekend and weekday averages are NaN exactly when their group is empty and otherwise the mean price of that group; the ratio follows WeekendRatio |
| PriceAnalyzer.FlatPricesFlatPattern | src/analysis/price_analyzer.py:129-136 | when every price is the same value c, every hourly, daily, weekend and weekday average is c |
| VolatilityRisk.SafeApiCall | src/categories/volatility_risk.py:28-41 | at most max_retries attempts; the first success is returned; None only after max_retries failures |
| VolatilityRisk.SimpleReturns | src/categories/volatility_risk.py:44-50 | at most n − 1 returns, none of them NaN |
| VolatilityRisk.ReturnsOfNonZero | src/categories/volatility_risk.py:44-50 | without zero prices there are exactly n − 1 returns, return i being p[i+1] / p[i] − 1 |
| VolatilityRisk.SortReals | src/categories/volatility_risk.py:65-66 | the sorted sample is a sorted permutation of the sample |
| VolatilityRisk.InterpolateBetween | src/categories/volatility_risk.py:65-66 | linear interpolation lies between the two neighbouring order statistics |
| VolatilityRisk.Percentile | src/categories/volatility_risk.py:65-66 | the percentile lies within the sample's range |
| VolatilityRisk.PercentileMonotone | src/categories/volatility_risk.py:65-66 | a lower percentile of the same sample is never above a higher one, so var_99 ≤ var_95 |
| VolatilityRisk.ConditionalVaR | src/categories/volatility_risk.py:67-68 | the tail mean exists exactly when some return is at or below the threshold, and is then at most the threshold |
| VolatilityRisk.CompoundOfReturns | src/categories/volatility_risk.py:71 | simple returns compound back to prices: step i of the cumulative product is p[i+1] / p[0] |
| VolatilityRisk.RunMax | src/categories/volatility_risk.py:72 | the running maximum is the largest of the prefix and is attained in it |
| VolatilityRisk.MinSkipNaN | src/categories/volatility_risk.py:74 | `min` skips NaN: NaN only when everything is NaN, −∞ when any entry is, otherwise the least finite entry |
| VolatilityRisk.DrawdownNonPositive | src/categories/volatility_risk.py:70-74 | with every 1 + r positive, each drawdown and max_drawdown are finite and in (−1, 0] |
| VolatilityRisk.MaxDrawdownAtMostZero | src/categories/volatility_risk.py:70-74 | for any non-empty returns max_drawdown is NaN or finite and at most 0 |
| VolatilityRisk.PositiveDrawdown | src/categories/volatility_risk.py:70-74 | without the positivity condition a single drawdown can be positive: the returns −2 then 1 give a drawdown of +1 |
| VolatilityRisk.VolatilityMetrics | src/categories/volatility_risk.py:53-76 | on non-empty returns the mean lies within the returns' range; var_99 ≤ var_95; cvar_95 ≤ var_95 and cvar_99 ≤ var_99, both defined; max_drawdown is NaN or at most 0 |
| VolatilityRisk.FitGarchModels | src/categories/volatility_risk.py:109-136 | all or nothing: the three models GARCH, EGARCH, GJR-GARCH in that order, fitted to the returns × 100, exactly when the library is present and all three fits succeed |
| VolatilityRisk.FirstMinIndex | src/categories/volatility_risk.py:446 | `idxmin`: the first position holding the least value |
| VolatilityRisk.BestModel | src/categories/volatility_risk.py:431-448 | the chosen model has the least AIC, and ties go to the first in insertion order |
| VolatilityRisk.LimitDateRange | src/categories/volatility_risk.py:310-316 | start > end stops the page; otherwise the end is kept; the start is kept when the span is at most 14 whole days, and is otherwise reset to end − 14 days |
| FeatureBuilder.Shift | src/feature_engineering/feature_builder.py:13 | row i takes row i − lag and is missing where that row does not exist |
| FeatureBuilder.FeatureFrame.AddLagFeatures | src/feature_engineering/feature_builder.py:7-14 | the frame is updated in place to WithLags of the old frame, with the row count unchanged |
| FeatureBuilder.WithLagsShifts | src/feature_engineering/feature_builder.py:7-14 | each `{col}_lag{lag}` column is the original column shifted by lag, and the lagged column itself is unchanged |
| FeatureBuilder.WithLagsKeeps | src/feature_engineering/feature_builder.py:7-14 | every column that is not one of the new lag names keeps its cells |
| FeatureBuilder.LagNameInjective | src/feature_engineering/feature_builder.py:13 | different (column, lag) pairs give different lag column names, so there is one lag column per pair |
| FeatureBuilder.FeatureFrame.AddRollingFeatures | src/feature_engineering/feature_builder.py:17-24 | the frame is updated in place to WithRolling of the old frame, with the row count unchanged |
| FeatureBuilder.WithRollingColumns | src/feature_engineering/feature_builder.py:17-24 | `{col}_roll_mean_{w}` and `{col}_roll_std_{w}` are the rolling mean and std of the original column |
| FeatureBuilder.WithRollingKeeps | src/feature_engineering/feature_builder.py:17-24 | the source column and every column that is not a rolling name keep their cells |
| FeatureBuilder.RollingOfNumbers | src/feature_engineering/feature_builder.py:22-23 | on a numeric column the rolling mean at row i is defined and is the window mean; the std is missing exactly for a one-row window |
| FeatureBuilder.FeatureFrame.AddCalendarFeatures | src/feature_engineering/feature_builder.py:27-35 | the frame is updated in place to WithCalendar of the old frame, with the row count unchanged |
| FeatureBuilder.CalendarValues | src/feature_engineering/feature_builder.py:31-34 | hour, weekday and month are derived from the time cell, and is_weekend iff weekday ≥ 5 |
| FeatureBuilder.CalendarKeeps | src/feature_engineering/feature_builder.py:27-35 | every other column keeps its cells |
| DataLoader.RenameTime | src/data_loader.py:19-21 | the first time/date column is relabelled `date`, and nothing else changes |
| DataLoader.PriceTarget | src/data_loader.py:24-33 | no target when `price_€/MWh` exists; otherwise the first column mentioning price, then the first numeric column, then none |
| DataLoader.Standardise | src/data_loader.py:19-33 | the rows are kept. The labels are RenameTime's (the first time/date column becomes `date`), except that the column PriceTarget chooses (the first price-mentioning column, else the first numeric one) becomes `price_€/MWh`; with no target the labels are RenameTime's. `price_€/MWh` is present exactly when it was already there, or some column mentions price, or some column is numeric |
| DataLoader.Features | src/data_loader.py:35-39 | features are added exactly when `price_€/MWh` is present; otherwise the table is returned unchanged |
| DataLoader.Load | src/data_loader.py:8-40 | an empty fetch result is returned unchanged; otherwise the standardised canonical table is featured exactly when it has a price column |
| DataLoader.LoadPriceData | src/data_loader.py:8-40 | the loading steps compute Load |
| DataLoader.AddLoaderFeatures | src/data_loader.py:36-39 | the three in-place feature calls turn the frame into Featurize of it |
| DataLoader.LoadDatesAreInstants | src/data_loader.py:17-37 | the `date` column that reaches the calendar features always holds instants |
| DataLoader.FeaturizedLags | src/data_loader.py:38 | the price lag columns are the price column shifted by 1 and 24 |
| DataLoader.FeaturizedRolling | src/data_loader.py:39 | the rolling columns for windows 24 and 48 are those of the price column |
| DataLoader.FeaturizedCalendar | src/data_loader.py:37 | the calendar columns survive the later calls with their derived values |
| DataLoader.FeaturizedKeeps | src/data_loader.py:36-39 | every other column, price and date included, keeps its cells |
| DataExplorer.ValidateWindow | src/categories/data_explorer.py:39-51 | start > end stops the page; the end is clamped to now; afterwards the span is at most 14 whole days; the start moves only to end − 14 days; start ≤ end afterwards exactly when the original start is not after now |
| DataExplorer.SettlementWithinDay | src/categories/data_explorer.py:98-103 | a period 1..48 lands on its own day at hour (period − 1) / 2 on a 30-minute boundary; period 49 is period 1 of the next day |
| DataExplorer.SettlementPeriodsOrdered | src/categories/data_explorer.py:98-103 | later periods give later instants, 30 minutes apart |
| DataExplorer.StampSourceOf | src/categories/data_explorer.py:95-103 | `startTime` wins, then `local_datetime`, then the settlement pair; the market-index frame skips `startTime`; the generation frames need both settlement columns |
| DataExplorer.SettlementStamp | src/categories/data_explorer.py:156-161 | NaT exactly when the date is missing or the period is not whole; otherwise the settlement instant |
| DataExplorer.StampsOf | src/categories/data_explorer.py:151-161 | the index exists exactly when a timestamp source applies; a missing settlement column is reported by name; otherwise one stamp per row, from the chosen source |
| DataExplorer.SettlementRowOnItsDay | src/categories/data_explorer.py:207-220 | a settlement-stamped row falls on its settlement day at hour (period − 1) / 2 |
| DataExplorer.FilterApx | src/categories/data_explorer.py:86-89 | with a `dataProvider` column only APXMIDP rows are kept; otherwise all rows are |
| DataExplorer.ApxRowsKeepsEvery | src/categories/data_explorer.py:87 | every APXMIDP row is kept and nothing else |
| DataExplorer.ApxRowsIdempotent | src/categories/data_explorer.py:87 | filtering twice equals filtering once |
| DataExplorer.ExpandNested | src/categories/data_explorer.py:311-322 | without nested data the rows are unchanged; a missing `startTime` or `settlementPeriod` raises KeyError; otherwise the rows are expanded |
| DataExplorer.ExpandedLength | src/categories/data_explorer.py:313-322 | the expanded frame has one row per item of every `data` list |
| DataExplorer.ExpandedAt | src/categories/data_explorer.py:313-322 | item m of row i sits after the items of earlier rows, as the base updated by that item |
| DataExplorer.ItemOverridesBase | src/categories/data_explorer.py:315-318 | item keys override the base `startTime` and `settlementPeriod` |
| DataExplorer.FuelColumns | src/categories/data_explorer.py:344-353 | `psrType` and `generation` are renamed only when the target is absent; a frame still lacking `fuelType` or `quantity` is an error |
| DataExplorer.FuelColumnsIdempotent | src/categories/data_explorer.py:344-349 | renaming again changes nothing |
| DataExplorer.AddWindSolar | src/categories/data_explorer.py:239-246 | the pivot is updated in place to WithWindSolar of the old pivot, with the row count unchanged |
| DataExplorer.WindSolarColumns | src/categories/data_explorer.py:239-246 | `Wind Total` is Offshore + Onshore when both are present; `Wind+Solar` is Offshore + Onshore + Solar when all three are present; other columns are unchanged |
| DataExplorer.WindSolarRow | src/categories/data_explorer.py:239-246 | row by row, the derived values are the sums |
| DataExplorer.WindSolarIdempotent | src/categories/data_explorer.py:239-246 | deriving the columns again changes nothing |

## Left out

- HTTP, XML and JSON-text mechanics are outside the model: `requests.get`, timeouts, `raise_for_status` and `pd.read_xml`. A response is a given datatype value.
- The client constructor's directory creation is not modelled. The client's key and base URL are.
- The full `ENDPOINTS` table and the roughly one hundred one-line wrapper methods are left out. A subset of sixteen keys is modelled, each with template "/" + key.
- Streamlit and Plotly are left out: widgets, charts, `st.stop`, and the `@st.cache_data` caching of `load_price_data`.
- Statistics libraries are left out: `adfuller`, `het_arch`, `jarque_bera`, skew and kurtosis, GARCH fitting and forecasting, Prophet and ARIMA. Of the GARCH code the model keeps only the control flow and the AIC arg-min.
- Square roots, logarithms and float rounding are left out.
  - Standard deviations are represented by variances.
  - z-scores are compared by their squares.
  - Log returns and annualised volatility are left out; only the simple-return branch of `calculate_returns` is modelled.
  - The Monte Carlo VaR is left out because it is random.
- Randomness is a parameter. The mock prices are draws from a given sequence of values in [0, 1).
- The clock is a parameter. The current time is given as an integer minute, so sub-minute precision is not represented.
- Text parsing of timestamps and numbers is a parameter: `pd.to_datetime` on text, `int()` and `float()`.
  - Failures of `pd.to_datetime` are not modelled.
- DataExplorer.SettlementStamp: gives NaT for a settlement period that is not a whole number and for a text period. In the code, `pd.to_timedelta((p - 1) * 30, unit="m")` gives a fractional offset for any numeric period, and a text period raises TypeError. Only NaN gives NaT there. The model's stamp agrees with the code for whole-number periods.
- Transform.NormalizeTimestamp: returns a new table. The code overwrites the caller's time column in place, and that aliasing is not modelled.
- Transform.NormalizeTimestamp: gives every time cell an instant through the parser, so a missing time cell does not become NaT. In pandas `pd.to_datetime` turns it into NaT, and then `min()`, `max()` and `asfreq` in `fill_missing_gaps` leave that row out. In the model the parsed instant of such a cell takes part in sorting and can widen the grid's bounds.
- Transform.FillMissingGaps: returns `Err("TypeError")` when a time cell is not an instant. pandas `asfreq` does not raise there: it leaves NaT rows out of the min/max and the grid, and reindexes a column of date strings onto the grid over their parsed bounds, with every cell missing. It raises only for mixed or unparseable values, or for an empty index that is not datetime. The one caller, Canonical.TransformData, always passes a normalised table of instants, so that branch is never taken on the pipeline's path.
- `sort_values` is modelled as a stable sort. pandas' default quicksort is not stable, so among rows sharing a timestamp the model's "first occurrence" is first in stable order.
- `load_price_data` passes the keyword arguments `dataset` and `bm_units` to `fetch_elexon_prices`, which does not accept them.
  - The model passes the request date only.
  - The model requires the raw table's column names to be distinct.
- `safe_api_call` invokes client methods that do not exist. The call is a parameter of SafeApiCall, and the model keeps only the retry logic.
- The data explorer's charts are left out, along with its `sort_index`, its `.loc` window slicing, the pivot's aggregation and `fillna(0)`, and `strftime` formatting.
  - The helper column `settDate` is not added.
  - Rows whose `data` value is not a list are reported as an error instead of being iterated.
  - The column order of the expanded frame is the order of the records' keys.
- PriceAdapters.ItemRecord: timestamps Elexon records at `settlementDate` + (period − 1) **hours**, as the code does. The data explorer uses 30-minute periods, and the model follows each file as written.
- PriceAnalyzer.AnalyzePriceVolatility: gives an undefined (NaN) `rolling_std` for a one-row window, as pandas does with `ddof=1`, where a descriptive note claims 0. The model follows the code.
- VolatilityRisk.VolatilityMetrics: takes finite returns only. After a zero price, `pct_change` gives ±infinity, which `dropna()` keeps; SimpleReturns keeps it too, as PosInf or NegInf. VolatilityMetrics is stated over a sequence of finite reals, such as Values(SimpleReturns(prices)), which leaves those infinite returns out. In the code they reach `np.percentile`, the CVaR mean and `cumprod`, and var_95, cvar_95 and the drawdown come out infinite or NaN. With prices [0, 10] the code gives var_95 = inf, while the model has no returns and gives Err.
- VolatilityRisk.FitGarchModels: is all or nothing, as in the code. A single failed fit discards all three models; it does not drop only the failing one.
- Time zones and daylight saving are left out. Instants are UTC.
- Strings.IsSpace and Strings.Lower: cover the ASCII range only. Python's `isspace()` and `lower()` also handle the rest of Unicode, such as the no-break space and accented capitals.
- `save_prices`, `load_dotenv`, `src/data_fetch.py`, the pages, `app.py` and the investigation scripts are not part of this model.

## Findings

| source | as written | input that shows it | evidently intended | confidence | as-written member | corrected member |
|---|---|---|---|---|---|---|
| src/config.py:57-63 | when the cast raises ValueError, `get_env_var` returns `default_value` uncast, so the result is sometimes of the wrong type | variable "abc", default "24", type int: the result is the string "24", and the use at src/config.py:66 would then set the window size to a string | return the default cast to the requested type | not executed | Config.UncastDefaultReturned | Config.GetEnvVar |
