# Heat-hotspot engine, modelled in Dafny

This project models the heat-hotspot engine of the DBTT_chart dashboard. It
decides whether a place is a heat hotspot, using temperature, humidity and
wind readings from nearby weather stations:

- Two min-max scalers are fitted once on a five-year historical corpus. The
  first is fitted on `airTemp`, `humidity` and `windSpeed`. The second is
  fitted on the heat score, `airTemp_norm + humidity_norm - windSpeed_norm`.
- Live readings are only transformed with the fitted scalers.
- The stations nearest to the user are ranked by distance (pandas
  `nsmallest`). Each chosen station gets an inverse-distance weight.
- The current score is the weighted dot product of the chosen stations'
  normalised heat scores.
- The historical corpus is filtered to the same stations and grouped by
  date. Each date gets its own re-weighted score.
- The threshold is the linearly interpolated percentile of those per-date
  scores (`np.percentile`). The current score is also given a percentile
  rank (`scipy.stats.percentileofscore`, `kind='rank'`).
- The place is a hotspot exactly when the current score is strictly above
  the threshold.

Around the engine the project models:

- the current-weather cache;
- the compass mappings (`angle_to_dir`, `windDirection_mapping`);
- the UV category table, the UV hour gate and the inner join of the station
  tables;
- the indoor summary;
- the earlier analyzer variant, which keeps the location in fields and
  writes distances into its argument frame;
- the dashboard's averaging, weighted averaging, summary-text extraction
  and form-enable predicate.

Modules, one file each:

| module | file | models |
|---|---|---|
| `Common` | common.dfy | Option, Result and the failure kinds (the Python exceptions) |
| `Stats` | stats.dfy | sums, dot products, means, sorting, `np.percentile`, `percentileofscore` |
| `Scaling` | scaling.dfy | sklearn's `MinMaxScaler` as a class with a `fitted` flag and per-column minima and maxima |
| `Readings` | readings.dfy | station rows, the heat score, `_process_weather_data` on the two scalers |
| `Stations` | stations.dfy | distances, `nsmallest`, inverse-distance weights, the weighted score |
| `Baseline` | baseline.dfy | `__filter_data`, the groupby per date, `find_threshold`, the hotspot decision |
| `Api` | api.dfy | analytics/api.py: direction mapping, `uv_mapping`, UV gate, inner join, `INDOOR_MAPPING` |
| `WeatherService` | weather_service.dfy | the `WeatherAnalyzer` class of analytics/weather_service.py, `angle_to_dir`, `_date_to_str`, `get_indoor_summary` |
| `DataRefactored` | data_refactored.dfy | the `WeatherAnalyzer` class of analytics/data_refactored.py with `LAT`/`LON` and an in-place frame |
| `FlaskApp` | flask_app.dfy | `windDirection_mapping` of app.py |
| `Dashboard` | dashboard.dfy | streamlit/app2.py: averages, weighted averages, summary text, `disabled` |

Modelling conventions:

- Arithmetic is over `real`; floating-point rounding is not modelled.
- Data frames are sequences of fixed-shape rows.
- The geodesic distance is a function-valued parameter of type
  `Stations.Metric`, whose values are never negative.
- The current time is an `int` number of microseconds passed in by the
  caller.
- The CSV corpus, the live feed and the postal-code lookup are passed in as
  already-decoded values.
- A Python exception becomes an `Err` of `Common.Failure`.

Three behaviours of the code are modelled as written:

- **Cache.** The refresh condition `self.date - now > 5 minutes` is kept
  as it stands. `self.date` is set only in `__init__`, so with a clock that
  moves forward a cached frame is never refreshed, however old it is.
- **Constant feature column.** A constant column maps to `x - min`, as
  sklearn's transform does. That is 0 on the fitted data but not on new
  readings.
- **Zero distance.** The code does not check for it: pandas would produce
  infinite or NaN weights. Reals have no infinity, so a chosen station at
  distance 0 gives `Err(ZeroDistance)`.

## Model

| member | source | states |
|---|---|---|
| Stats.MeanBetween | streamlit/app2.py:26 | the mean `sum/len` of a non-empty list lies between its minimum and its maximum |
| Stats.ConvexCombination | analytics/weather_service.py:270 | with non-negative weights that sum to 1, `np.dot(weights, scores)` lies between the smallest and the largest score |
| Stats.DotSnoc | streamlit/app2.py:116-119 | appending one (weight, value) pair adds exactly its product to the dot product, which is the running sum of an accumulation loop |
| Stats.Insert | analytics/weather_service.py:283-285 | inserting into a sorted list keeps it sorted and adds exactly one copy of the value |
| Stats.Sort | analytics/weather_service.py:283-285 | the percentile's sort returns the values in ascending order as a permutation of the input |
| Stats.SortedUnique | analytics/weather_service.py:283-285 | two sorted permutations of the same values are equal, so the sorted order is determined by the values alone |
| Stats.SortEnds | analytics/weather_service.py:283-285 | the sorted values start at the minimum and end at the maximum |
| Stats.RankInRange | analytics/weather_service.py:283-285 | the rank `p/100 * (n-1)` has its floor in `0..n-1`, and a fractional part forces floor < n-1, so both neighbours exist |
| Stats.RankDecomposition | analytics/weather_service.py:283-285 | the rank splits into its floor and a fraction in [0, 1), and the fraction is 0 exactly when the rank is whole |
| Stats.PercentileErrors | analytics/weather_service.py:283-285 | `np.percentile` fails exactly when p is outside [0, 100] (`PercentileOutOfRange`) or there are no values (`EmptyHistory`) |
| Stats.InterpolateBetween | analytics/weather_service.py:283-285 | linear interpolation on sorted values stays between the first and the last value |
| Stats.PercentileBetween | analytics/weather_service.py:283-285 | on non-empty data and p in [0, 100] the percentile exists and lies in [min, max]; p = 0 gives the min and p = 100 the max |
| Stats.InterpolateBottom | analytics/weather_service.py:283-285 | percentile 0 of sorted values is the first value |
| Stats.InterpolateTop | analytics/weather_service.py:283-285 | percentile 100 of sorted values is the last value |
| Stats.Interpolate | analytics/weather_service.py:283-285 | defines numpy's linear method on sorted values: rank `p*(n-1)/100`, its floor and, for a fractional rank, the next value, joined by the fractional weight; it lies between its neighbours (`Stats.InterpolateBetween`) |
| Stats.Percentile | analytics/weather_service.py:283-285 | defines `np.percentile(values, p)`: an error outside [0, 100] or on no values, otherwise the interpolation on the sorted values; it lies between the minimum and the maximum (`Stats.PercentileBetween`) |
| Stats.PercentileOrderFree | analytics/weather_service.py:316-322 | the percentile depends only on the multiset of per-date scores, not on the order of the groups |
| Stats.CountsOrdered | analytics/weather_service.py:323-325 | the count strictly below a score is at most the count at or below it, which is at most the length |
| Stats.PercentileOfScore | analytics/weather_service.py:323-325 | defines `percentileofscore(kind='rank')` as `(left + right + (1 if right > left else 0)) * 50 / n`; its range is in `Stats.PercentileOfScoreRange` |
| Stats.CountsOrderFree | analytics/weather_service.py:323-325 | the counts below and at most a score depend only on the multiset of values |
| Stats.PercentileOfScoreOrderFree | analytics/weather_service.py:316-325 | the percentile rank depends only on the multiset of per-date scores, not on the order of the groups |
| Stats.PercentileOfScoreRange | analytics/weather_service.py:323-325 | `percentileofscore` (rank kind) lies in [0, 100] |
| Stats.PercentileOfScoreAbove | analytics/weather_service.py:323-325 | a score above every value has percentile rank 100 |
| Stats.PercentileOfScoreBelow | analytics/weather_service.py:323-325 | a score below every value has percentile rank 0 |
| Stats.CountAllBelow | analytics/weather_service.py:323-325 | when every value is below the score, both counts equal the length |
| Stats.CountNoneAtMost | analytics/weather_service.py:323-325 | when every value is above the score, both counts are 0 |
| Scaling.TransformRows | analytics/weather_service.py:92 | every entry is scaled by its own column's fitted minimum and maximum, and the shape is kept |
| Scaling.Scale | analytics/weather_service.py:92 | one scaled entry `(x - min) / (max - min)`, or `x - min` for a zero range; on a non-zero range `min + r * (max - min)` gives back the value |
| Scaling.MinMaxScaler.constructor | analytics/weather_service.py:49-50 | a new scaler is unfitted |
| Scaling.MinMaxScaler.Fit | analytics/weather_service.py:82 | a fit on empty or ragged data fails and leaves the scaler unfitted; otherwise the scaler is fitted with the column minima and maxima of the data |
| Scaling.MinMaxScaler.Transform | analytics/weather_service.py:92 | before any fit it fails with NotFitted; on no rows with EmptyInput; on a width other than the fitted one with BadShape; otherwise it scales with the stored minima and maxima |
| Scaling.MinMaxScaler.FitTransform | analytics/weather_service.py:81-83 | fit, then transform the same data with the new minima and maxima; failure leaves the scaler unfitted |
| Scaling.ScaleInUnit | analytics/weather_service.py:81-83 | a value inside the fitted range scales into [0, 1] |
| Scaling.ScaleStrictlyIncreasing | analytics/weather_service.py:92 | scaling is strictly increasing in the value |
| Scaling.FittedColumn | analytics/weather_service.py:81-83 | on its own column every scaled value is in [0, 1]; the minimum maps to 0, the maximum to 1, and a constant column to 0 |
| Scaling.ScaleEnds | analytics/weather_service.py:81-83 | the fitted minimum maps to 0, and a different fitted maximum maps to 1 |
| Scaling.FitTransformInUnit | analytics/weather_service.py:81-83 | every entry of `fit_transform` on a non-empty frame is in [0, 1], with the minimum at 0, the maximum at 1 and a constant column at 0 |
| Readings.HeatColumn | analytics/weather_service.py:84-86 | `heat_score = airTemp_norm + humidity_norm - windSpeed_norm` for every row |
| Readings.ScoreRow | analytics/weather_service.py:94-97 | a scored row keeps its reading, and its heat score is the same formula on its normalised features |
| Readings.Normalize | analytics/weather_service.py:90-97 | one scored row per reading, in order |
| Readings.HeatScoresWith | analytics/weather_service.py:84-86 | the heat-score column under the given feature minima and maxima, one entry per reading |
| Readings.HistoricalModels | analytics/weather_service.py:79-88 | the two fits on a non-empty corpus give three ordered feature ranges and one ordered heat range |
| Readings.HeatColumnFit | analytics/weather_service.py:88 | the heat scaler is fitted on the minimum and the maximum of the heat-score column |
| Readings.FittedRangesOrdered | analytics/weather_service.py:82 | every fitted column minimum is at most its maximum |
| Readings.AssembleNormalizes | analytics/weather_service.py:81-88 | the assigned columns of the historical branch are exactly `Normalize` under the fitted models |
| Readings.HistoricalFeatureNorms | analytics/weather_service.py:81-83 | on the historical data every `*_norm` is in [0, 1]; the column minimum maps to 0, the maximum to 1, and a constant column to 0 |
| Readings.FeatureModelIsColumnRange | analytics/weather_service.py:82 | the fitted feature range is the minimum and the maximum of that feature's column |
| Readings.NormOfScoreRow | analytics/weather_service.py:92 | each normalised feature of a row is that feature scaled by its fitted range |
| Readings.HistoricalHeatNorm | analytics/weather_service.py:88 | on the historical data `heat_score_norm` is in [0, 1]; the minimum heat score maps to 0, the maximum to 1, and a constant heat score to 0 |
| Readings.HeatModelIsColumnRange | analytics/weather_service.py:88 | the fitted heat range is the minimum and the maximum of the historical heat scores |
| Readings.HeatOfScoreRow | analytics/weather_service.py:94-97 | a row's heat score uses the fitted feature ranges, and its `heat_score_norm` is that score scaled by the fitted heat range |
| Readings.HeatRisesWithTemperature | analytics/weather_service.py:94-97 | with other features equal, a higher `airTemp` gives a strictly higher heat score and normalised heat score |
| Readings.HeatFallsWithWind | analytics/weather_service.py:94-97 | with other features equal, a higher `windSpeed` gives a strictly lower heat score and normalised heat score |
| Readings.FittedModels | analytics/weather_service.py:92 | the ranges stored in a fitted scaler pair are well formed, with feature and heat minima read from the scalers |
| Readings.ProcessFrame | analytics/weather_service.py:70-99 | historical branch: both scalers refit (feature scaler first, then the heat scaler on the heat score), with the output normalised by those fits; empty input fails; the feature scaler is left unfitted and the heat scaler as it was. Current branch: neither scaler changes; fails with NotFitted before a fit and EmptyInput on no rows; otherwise normalises with the stored fits. The same function serves analytics/data_refactored.py:43-68 |
| Stations.Distances | analytics/weather_service.py:242-247 | one non-negative distance per row, from the query point to that row's coordinates |
| Stations.Scaled | analytics/weather_service.py:259 | every entry divided by the same non-zero total |
| Stations.Inverses | analytics/weather_service.py:258 | `1 / distance` for every row |
| Stations.Weights | analytics/weather_service.py:258-259 | the weights fail exactly when a distance is 0 (ZeroDistance), and otherwise give one weight per distance |
| Stations.WeightsSumToOne | analytics/weather_service.py:258-259 | the inverse-distance weights of a non-empty selection are positive and sum to 1 |
| Stations.WeightsMonotone | analytics/weather_service.py:258-259 | a strictly smaller distance gets a strictly larger weight |
| Stations.InsertIndex | analytics/weather_service.py:229 | inserting an index keeps the index list ordered by (distance, index) and adds exactly that index |
| Stations.Ranking | analytics/weather_service.py:229 | the first m row indices, each once, ordered by distance with ties in row order |
| Stations.SelectNearest | analytics/weather_service.py:229 | `nsmallest` picks valid row indices |
| Stations.SelectNearestSpec | analytics/weather_service.py:229 | `nsmallest(k)` gives min(k, n) rows (none when k <= 0), in ascending distance with ties in input order, and every row left out comes after every row chosen |
| Stations.WeightedHeatScore | analytics/weather_service.py:262-270 | defines `np.dot(distance_weight, heat_score_norm)` over the chosen stations; it lies between their extremes (`Stations.WeightedScoreBetween`) |
| Stations.Nearest | analytics/weather_service.py:227-230 | each chosen station is the row `nsmallest` selected, carrying its measured distance, in selection order |
| Stations.NearestWeights | analytics/weather_service.py:229-230 | a selection fails exactly when a chosen distance is 0; otherwise its weights are those computed from the chosen distances |
| Stations.WeightedScoreBetween | analytics/weather_service.py:270 | the weighted score of a non-empty selection lies between the smallest and the largest chosen `heat_score_norm` |
| Baseline.FilterByStations | analytics/weather_service.py:343 | filtering never adds rows |
| Baseline.FilterMembers | analytics/weather_service.py:343 | a row survives the `isin` filter exactly when it is in the corpus and its station is among the chosen ones |
| Baseline.FilterAppend | analytics/weather_service.py:343 | the filter works row by row, so it keeps the corpus order |
| Baseline.Dedup | analytics/weather_service.py:316-318 | the group keys are the distinct dates, each once |
| Baseline.GroupOf | analytics/weather_service.py:316-318 | a group holds exactly the filtered rows of its date |
| Baseline.DayScore | analytics/weather_service.py:312-314 | a date's score fails exactly when one of its rows is at distance 0 |
| Baseline.DailyScores | analytics/weather_service.py:316-320 | one score per distinct date, taken with that date's own re-normalised weights; fails exactly when some date cannot be weighted |
| Baseline.DailyScoresLoop | analytics/weather_service.py:316-320 | the groupby-apply loop over the dates yields exactly those per-date scores or that failure |
| Baseline.Hotspot | analytics/weather_service.py:287-332 | `isHotspot` holds exactly when the weighted score is strictly above the threshold, and the weighted score is that of the chosen stations |
| Baseline.GroupsPartition | analytics/weather_service.py:316-320 | the group keys are distinct, are exactly the dates that occur, and each names a non-empty group |
| Baseline.DayScoreBetween | analytics/weather_service.py:312-314 | a date's weights sum to 1, and its score lies between the smallest and the largest `heat_score_norm` of that date |
| Baseline.HotspotSpec | analytics/weather_service.py:322-331 | on success there is one score per date (at least one); the threshold is their percentile and lies between their min and max; the percentile rank is in [0, 100] |
| Baseline.HotspotErrors | analytics/weather_service.py:322 | a percentile outside [0, 100] fails with PercentileOutOfRange; no history for the chosen stations fails with EmptyHistory |
| Baseline.HistoryFromChosenStations | analytics/weather_service.py:309 | the distribution uses exactly the corpus rows of the chosen stations |
| Api.Trunc | analytics/api.py:118 | Python's `int()` on a float truncates toward zero |
| Api.PyIndex | analytics/api.py:119 | list indexing succeeds on `-len .. len-1`, with negative indices counting from the end; otherwise it raises IndexError |
| Api.Compass | analytics/api.py:117-119 | `directions[int(angle / 22.5)]` succeeds exactly when the section is a valid Python index of the sixteen labels, and then gives one of them |
| Api.DirectionsOf | analytics/api.py:115-120 | the mapping fails exactly when some angle's index is out of range; otherwise it gives one label per angle, in order |
| Api.WindDirectionMapping | analytics/api.py:95-120 | the append loop returns exactly the mapped list or that failure |
| Api.CompassInCircle | analytics/api.py:117-119 | on [0, 360) the section is the floor of angle / 22.5, always in 0..15, so the lookup succeeds |
| Api.CompassOverflow | analytics/api.py:118-119 | an angle of 360 or more gives an index of at least 16 and fails, since there is no mod-360 step |
| Api.CompassNegative | analytics/api.py:118-119 | a negative angle maps through negative indexing and fails exactly at -382.5 or below |
| Api.CompassExamples | analytics/api.py:7 | 0 maps to "N", 315 to "NW" and 359 to "NNW" |
| Api.UvIntegerBands | analytics/api.py:123-133 | on integers: <= 2 Low, 3-5 Moderate, 6-7 High, 8-10 Very High, > 10 Extreme, each with its fixed advice |
| Api.UvGapsAreExtreme | analytics/api.py:124-133 | values in (2, 3), (5, 6), (7, 8) and above 10 fall through to Extreme |
| Api.UvMapping | analytics/api.py:123-133 | every UV index gets one of the five categories with that category's advice; the category is Low exactly for an index of at most 2 |
| Api.Slice | analytics/api.py:71 | Python slicing clamps to the string's end |
| Api.LexLe | analytics/api.py:71 | defines Python's `<=` on strings, character-code order with a prefix first; on two digits it is the numeric order (`Api.UvHoursNumeric`) |
| Api.UvHours | analytics/api.py:71 | defines the gate `"07" <= datetime[11:13] <= "21"`; on the service's timestamps it means hour 7 to 21 (`WeatherService.UvHoursOfTimestamp`) |
| Api.UvIndex | analytics/api.py:70-74 | `uv_index` stays 0 unless the hour gate passes, in which case it is the fetched value |
| Api.UvHoursNumeric | analytics/api.py:71 | on two digits at positions 11-12 the lexicographic gate is exactly the numeric test 7 <= hour <= 21 |
| Api.UvHoursShort | analytics/api.py:71 | a timestamp too short to hold an hour never passes the gate |
| WeatherService.DigitChar | analytics/weather_service.py:130 | each digit is rendered as its ASCII character |
| WeatherService.Pad2 | analytics/weather_service.py:130 | two-digit zero-padded field of strftime |
| WeatherService.Pad4 | analytics/weather_service.py:130 | the four-character year field of strftime |
| WeatherService.DateToStr | analytics/weather_service.py:122-130 | `%Y-%m-%dT%H:%M:%S` is 19 characters, with `T` at position 10 and the padded hour at 11-12 |
| WeatherService.UvHoursOfTimestamp | analytics/api.py:69-71 | on the timestamps the service builds, UV is requested exactly for hours 7 to 21 |
| Api.Lookup | analytics/api.py:78-86 | a station's value is found exactly when the table holds that station, and the value is the table's |
| Api.InnerJoin | analytics/api.py:76-88 | the inner join never has more rows than the location table |
| Api.InnerJoinMembers | analytics/api.py:76-88 | a station is in the joined frame exactly when it is in all five tables |
| Api.WeatherFrame | analytics/api.py:76-92 | each joined row keeps its site, `airTemp`, `windSpeed`, `windDirection` in degrees and `humidity` from the join, and gains its compass label and the gated `uv_index` |
| WeatherService.Refetch | analytics/weather_service.py:110 | defines the refresh condition: no cached frame, or `self.date - now` over five minutes; `WeatherService.WeatherAnalyzer.GetCurrentWeather` refetches exactly then |
| WeatherService.CurrentScores | analytics/weather_service.py:90-97 | the current branch fails with NotFitted before the fit and EmptyInput on no rows; otherwise one scored row per reading |
| WeatherService.WeatherAnalyzer.constructor | analytics/weather_service.py:49-50 | two new unfitted scalers, with no data and no cached frame |
| WeatherService.WeatherAnalyzer.LoadHistorical | analytics/weather_service.py:57-68 | the corpus is processed with historical=True, which fits both scalers on it |
| WeatherService.WeatherAnalyzer.Init | analytics/weather_service.py:42-55 | `DATA` is the normalised corpus, the scalers hold its fits, `date` is the start time, and the cache holds the first current frame |
| WeatherService.WeatherAnalyzer.GetCurrentWeather | analytics/weather_service.py:101-120 | refetches and transforms only when the cache is empty or `date - now` exceeds 5 minutes; the scalers and `date` never change; after `date`, the cached frame is returned unchanged |
| WeatherService.WeatherAnalyzer.FindNearestStations | analytics/weather_service.py:210-230 | the nearest selection over the (possibly refreshed) cached frame; the cached frame is not modified |
| WeatherService.WeatherAnalyzer.FilterData | analytics/weather_service.py:334-343 | exactly the corpus rows whose station is among the chosen ones |
| WeatherService.WeatherAnalyzer.IsHotspot | analytics/weather_service.py:287-332 | the per-date loop, the threshold and the percentile rank give exactly the hotspot decision |
| WeatherService.WeatherAnalyzer.GetIndoorSummary | analytics/weather_service.py:154-183 | copying a missing cached frame fails; otherwise the indoor summary of the cached frame |
| WeatherService.AngleToDir | analytics/weather_service.py:345-369 | after `% 360`, the index is always in 0..15, so the result is always one of the sixteen compass labels |
| WeatherService.AngleToDirPeriodic | analytics/weather_service.py:367 | `angle` and `angle + 360` map to the same direction |
| WeatherService.AngleToDirAgrees | analytics/weather_service.py:367-369 | on [0, 360) it agrees with the float mapping of analytics/api.py |
| WeatherService.ReverseLookup | analytics/weather_service.py:156 | a station has a room exactly when some pair names it, and the room comes from such a pair |
| WeatherService.RoomOfInverts | analytics/weather_service.py:156-160 | exactly the mapped stations get a room, and each gets the room it is paired with |
| WeatherService.IndoorSummary | analytics/weather_service.py:159-181 | one summary row per kept reading |
| WeatherService.IndoorSummarySpec | analytics/weather_service.py:159-181 | each summary row comes from a current row, carries its mapped room and its temperature, humidity and wind speed, has the Living Room direction, and has the `heatStress` of its own temperature, wind speed and humidity |
| WeatherService.IndoorRowsKept | analytics/weather_service.py:160-163 | a current row is kept exactly when its station has a room |
| WeatherService.LivingRoomDirFrom | analytics/weather_service.py:166-170 | the shared direction is that of a kept Living Room row, or none when no Living Room station reported |
| WeatherService.LivingRoomDir | analytics/weather_service.py:166-167 | defines `living_room_dir[0]` of the kept rows, or None when no Living Room row is kept |
| WeatherService.LivingRoomDirFirst | analytics/weather_service.py:166-167 | the shared direction is that of the first kept Living Room row |
| WeatherService.HeatStress | analytics/weather_service.py:173-178 | defines `0.726330*airTemp + 0.012713*windSpeed + 0.109697*humidity - 5.12977`, the `heatStress` of each summary row (`WeatherService.IndoorSummarySpec`) |
| DataRefactored.WeatherAnalyzer.constructor | analytics/data_refactored.py:24-26 | two new unfitted scalers, with no data, no cache and no location |
| DataRefactored.WeatherAnalyzer.LoadHistorical | analytics/data_refactored.py:32-41 | the corpus is processed with historical=True, which fits both scalers |
| DataRefactored.WeatherAnalyzer.Init | analytics/data_refactored.py:18-30 | the same start-up as the first analyzer; no location is set |
| DataRefactored.WeatherAnalyzer.GetCurrentWeather | analytics/data_refactored.py:70-87 | the same cache rule (`date - now` over 5 minutes) and unchanged scalers |
| DataRefactored.WeatherAnalyzer.SetLocation | analytics/data_refactored.py:233-243 | a found pair becomes `LAT`/`LON`; a failed lookup raises LocationNotFound and keeps the old location |
| DataRefactored.WeatherAnalyzer.ComputeDistance | analytics/data_refactored.py:135-147 | writes into the caller's frame the distance from `LAT`/`LON` to every row; without a location it fails and leaves the frame alone |
| DataRefactored.WeatherAnalyzer.FindNearestStations | analytics/data_refactored.py:122-133 | measures the frame in place, then gives the nearest selection from `LAT`/`LON` |
| DataRefactored.WeatherAnalyzer.FilterData | analytics/data_refactored.py:222-231 | exactly the corpus rows whose station is among the chosen ones |
| DataRefactored.WeatherAnalyzer.IsHotspot | analytics/data_refactored.py:182-220 | always picks 3 stations, then gives the same hotspot decision as the first analyzer, measured from `LAT`/`LON`; the frame gets the distances from `LAT`/`LON`; without a location it fails and the frame keeps its distances |
| FlaskApp.Direction | app.py:29-31 | app.py's own table and `int(angle/22.5)` give the same label or failure as analytics/api.py |
| FlaskApp.WindDirectionMapping | app.py:21-32 | the for loop agrees element-wise with `windDirection_mapping` of analytics/api.py on every input: same length, order and failure |
| FlaskApp.DirectionRange | app.py:29-31 | on [0, 360) it gives the section's label; 360 or more fails out of range |
| Dashboard.CalculateAverageStats | streamlit/app2.py:22-34 | `{}` exactly for an empty list; otherwise the direction is the first record's |
| Dashboard.AverageStatsBetween | streamlit/app2.py:26-32 | each averaged field (`sum/len`) lies between that field's minimum and maximum |
| Dashboard.WeightedStats | streamlit/app2.py:112-121 | with no stations the `uv_index` lookup raises KeyError; otherwise the weighted sums |
| Dashboard.WeightedFieldSnoc | streamlit/app2.py:116-119 | each station adds exactly `station[key] * distance_weight` to its key's sum |
| Dashboard.WeightedStatsLoop | streamlit/app2.py:112-121 | the nested loop that updates the dictionary in place gives each key's sum of `station[key] * distance_weight` from 0, with `uv_index` truncated to int, or the KeyError |
| Dashboard.WeightedStatsBetween | streamlit/app2.py:116-119 | with weights that are non-negative and sum to 1, each weighted field lies between the stations' extremes |
| Dashboard.IndexOf | streamlit/app2.py:123-124 | the first occurrence of the separator at or after the start, or none at all |
| Dashboard.SecondPiece | streamlit/app2.py:124 | `split(sep)[1]` is missing exactly when the separator does not occur; otherwise it is the text between the first and the next occurrence (`Dashboard.SecondPieceSpec`) |
| Dashboard.SecondPieceSpec | streamlit/app2.py:124 | `split("Summary:")[1]` is the text from the first occurrence up to the next one (or the end), with no occurrence inside it |
| Dashboard.LeadingSpace | streamlit/app2.py:124 | the white space that `strip` removes at the front |
| Dashboard.TrailingSpace | streamlit/app2.py:124 | the white space that `strip` removes at the back |
| Dashboard.Strip | streamlit/app2.py:124 | a slice of the input that neither starts nor ends with white space; everything cut off is white space |
| Dashboard.ReplaceAbsent | streamlit/app2.py:126 | `replace` leaves a text without the pattern unchanged |
| Dashboard.ReplaceSafePrefix | streamlit/app2.py:125-126 | a prefix in which no occurrence starts passes through `replace` unchanged |
| Dashboard.ReplaceShort | streamlit/app2.py:126 | a text shorter than the pattern is unchanged |
| Dashboard.Replace | streamlit/app2.py:126 | defines `str.replace` scanning left to right without overlaps; its properties are `Dashboard.ReplaceAbsent`, `Dashboard.ReplaceSafePrefix` and `Dashboard.ReplaceShort` |
| Dashboard.ExtractSummary | streamlit/app2.py:123-127 | fails (unbound `suggestions`) exactly when "Summary:" does not occur |
| Dashboard.HeadingIsSafe | streamlit/app2.py:125-126 | no "Suggestions:" starts inside the "\n**Summary:** " heading |
| Dashboard.ExtractSummarySpec | streamlit/app2.py:123-126 | with "Summary:" present, the result is the heading followed by the stripped first piece with every "Suggestions:" reformatted |
| Dashboard.Disabled | streamlit/app2.py:210-214 | defines `disabled`: the stripped code is not six characters, or not all digits, or the direction is 0; characterised in `Dashboard.EnabledForm` |
| Dashboard.NorthNeverSubmits | streamlit/app2.py:202-213 | a house direction of 0 (the default) always disables the button |
| Dashboard.EnabledForm | streamlit/app2.py:210-219 | the button is enabled exactly for a stripped six-digit postal code and a non-zero direction, so the empty-code error is never shown |

## Left out

- Network I/O is not modelled; each result becomes an input. This covers
  the HTTP requests of `get_weather_data`, `postal_code_to_latlong`,
  `get_forecast_df`, `fetch_weather_data` and the request in
  `fetch_weather_recommendation`. The postal-code lookup result is the
  argument of `SetLocation`.
- The geodesic (ellipsoidal) distance of geopy is a parameter that returns
  a non-negative number.
- Reading the CSV corpus, splitting its `date` column, the dotenv config
  and `CONFIG` are not modelled. `datetime.now()` is an argument given in
  microseconds.
- The `mock` override that sets station S50's temperature to 33 is not
  modelled.
- Floating point is not modelled:
  - arithmetic is over reals;
  - `.round(3)` of the heat stress is omitted;
  - sklearn's tolerance for a nearly-zero range is replaced by an exact
    zero test;
  - NaN and infinity do not exist, so a chosen station at distance 0 is
    `Err(ZeroDistance)`.
- pandas sorts the group keys of `groupby`, but `Baseline.DailyScores`
  keeps them in first-appearance order. The percentile and the percentile
  rank do not depend on that order (`Stats.PercentileOrderFree`,
  `Stats.PercentileOfScoreOrderFree`).
- `percentileofscore` on an empty list is not modelled. It is reached only
  after the percentile of the same list has succeeded, so that list is
  never empty.
- Dashboard.Strip, Dashboard.LeadingSpace and Dashboard.TrailingSpace:
  white space is tab, line feed, vertical tab, form feed, carriage return,
  the separators 0x1C-0x1F and space. The Unicode white space that Python
  also strips (0x85, 0xA0, 0x2028 and others) is kept.
- Dashboard.AllDigits and Dashboard.Disabled: `str.isdigit` is modelled
  as accepting only the digits `0`-`9`, not other Unicode digits.
- Baseline.HotspotErrors: when no corpus row belongs to the chosen
  stations, pandas raises a TypeError at `reset_index(name=...)` before
  `np.percentile` runs. The model reports PercentileOutOfRange or
  EmptyHistory for that case instead.
- The default arguments `num_stations=1` and `percentile_threshold=90` are
  not modelled. The model takes both as arguments, so a caller relying on
  the defaults passes 1 and 90.
- DataRefactored.WeatherAnalyzer.SetLocation: the lookup result is an
  input. In analytics/data_refactored.py `self.CONFIG` holds the boolean
  that `load_dotenv(".env")` returns (line 24), so `self.CONFIG["ONEMAPS_KEY"]`
  (line 107) raises a TypeError as written, and the found-pair branch is
  reachable only in the model.
- The inner join assumes each station occurs once per table. pandas would
  multiply duplicate keys.
- `DataRefactored.WeatherAnalyzer.IsHotspot`: the filtered corpus is not
  copied into a frame to receive a distance column. The per-date score
  computes the same distances from `LAT`/`LON` itself.
- Aliasing is not modelled. `self.CURRENT` of the second analyzer is a
  value, so a caller passing the cached frame to `is_hotspot` does not see
  a distance column added to the cache.
- `WeatherService.WeatherAnalyzer.Init` and
  `DataRefactored.WeatherAnalyzer.Init`: when the first live fetch fails,
  the analyzer reports the failure instead of raising out of `__init__`.
- The Flask routes and server, the Streamlit rendering and CSS, the
  markdown conversion and the JavaScript charts are not modelled.
- `generate_time_series` is not modelled, because it is random.
- analytics/AI.py (an LLM prompt) is not part of this model.
- analytics/data.py is not part of this model. It is a superseded copy of
  the same algorithm that cannot run as written.
