# Sensor-log enrichment pipeline, modelled in Dafny

The repository has two scripts that walk a time-stamped sensor log in order.
Each row has a date label `dia`, a time-of-day label `hora`, a temperature and a `ligado` flag.
For each row a script computes the row's epoch, rounds it to the nearest slot of the configured step (`format_time`) and attaches side data.

- `Parser.py` attaches weather. When the `dia` label changes, it fetches that day's hourly forecast and interpolates it onto a 5-minute grid (`interpolate_data`, `to_celsius`).
- `Parser-Sun.py` attaches the sun's altitude at the row's slot.

Every `save_interval` rows, and once more at the end, a script checkpoints (`save`). The checkpoint keeps the log rows processed so far, keys them, and appends them to the stored table. It then sorts the table by time and drops duplicate rows, keeping the first.
- The weather table deduplicates on `hora` alone.
- The solar table deduplicates on the pair (`hora`, `dia`).

The model has one Dafny module per piece:

| module | file | models |
|---|---|---|
| `Wrappers`, `Failures` | `wrappers.dfy` | `Option`, `Result`, and the exceptions the scripts can raise |
| `Quantizer` | `quantizer.dfy` | `format_time` |
| `Interpolation` | `interpolation.dfy` | `DataFrame.interpolate()` with its defaults, one column at a time |
| `WeatherDay` | `weather_day.dfy` | `to_celsius`, `np.arange`, the 24-row hourly table, `combine_first`, `interpolate_data` |
| `Checkpoint` | `checkpoint.dfy` | the merge shared by both saves: append, `sort_index`, `drop_duplicates(keep='first')` |
| `SensorLog` | `sensor_log.dfy` | log rows, the rows where the day label changes, the checkpoint counts |
| `WeatherPipeline` | `weather_pipeline.dfy` | the weather `save`: truncate, key by slot, left join with the weather data, merge |
| `WeatherDriver` | `weather_driver.dfy` | the weather `main` loop |
| `SolarPipeline` | `solar_pipeline.dfy` | the solar `save`: truncate, attach the angles, index by `time`, merge |
| `SolarDriver` | `solar_driver.dfy` | the solar `main` loop |

Each driver is stated twice:
- as a fold over the rows (`WeatherLoop`/`WeatherRun`, `SolarLoop`/`SolarRun`);
- as the imperative loop (`RunWeather`, `RunSolar`), proved equal to the fold.

Lemmas about the fold state what the loop does after any number of rows (`Traced`).
A run that raises still leaves behind the table its last checkpoint wrote. `StoredAfterRun` is that table, and the `FailureKeepsStoredTable` lemmas pin it.
Outside inputs are parameters of an environment value:
- the local clock that turns `dia + hora` into an epoch;
- the forecast service;
- the altitude routine;
- the step and the location from the user configuration;
- the checkpoint interval.

Each exception the modelled code raises is an `Err` value. Exceptions raised inside the foreign calls and the date parsing are not modelled (see "Left out").
The stored CSV table is a sequence of records, with a missing file as the empty table.

Behaviour modelled as the code is written, including what a reader may not expect:
- **Weather dedup on `hora` only.** The weather save deduplicates on `hora` alone, so a row of a later day whose time of day is already stored is dropped (`WeatherPipeline.SameHoraOfLaterDayDropped`).
- **Latitude passed twice.** The solar driver passes the location's first coordinate as both coordinates to the altitude routine (`SolarDriver.CallFor`).
- **Empty first label.** A first row whose `dia` is the empty string equals the initial `current_day`, so it opens no day and fetches nothing (`SensorLog.IsDayStart`).
- **Double save.** When the row count is a multiple of the interval, the last periodic checkpoint and the final save both run.
- **The 288-row grid.** The grid frame always has 288 rows, so `interpolate_data` raises unless the slot grid has exactly 288 entries. For hourly records an hour apart, that means a 5-minute step (`WeatherDay.RegularDayNeedsFiveMinuteStep`).
- **Interpolation by position.** Interpolation spaces rows equally by position. Cells before a column's first known value stay unset. Cells after its last known value repeat that value.

## Model

| member | source | states |
|---|---|---|
| Quantizer.FloorDiv | Parser.py:144 | definition of Python's integer `//`, rounding the quotient down for either sign; `FloorDivBounds` pins it |
| Quantizer.FormatTime | Parser.py:140-145 | a zero step is exactly the case that raises ZeroDivisionError; any other step yields a slot |
| Quantizer.FloorDivBounds | Parser.py:144 | Python's `//` gives the largest multiple count not above the dividend, for either sign of the divisor |
| Quantizer.FormatTimeRounds | Parser.py:142-145 | the slot is a multiple of the step and lies in `(t - step/2, t + step/2]` (mirrored for a negative step) |
| Quantizer.AlignedIsFixed | Parser-Sun.py:63-66 | an epoch already on the step grid is its own slot |
| Quantizer.FormatTimeIdempotent | Parser-Sun.py:63-66 | quantizing a slot again gives the same slot |
| Quantizer.MidpointRoundsUp | Parser.py:144 | an epoch exactly half a step before a boundary rounds up to that boundary |
| Quantizer.BelowMidpointRoundsDown | Parser.py:144 | one second earlier rounds down to the previous boundary |
| Quantizer.TenMinuteExample | Parser.py:140-145 | with a 10-minute step, 300 s before 6000 gives 6000 and 301 s before gives 5400 |
| WeatherDay.ToCelsius | Parser.py:135-137 | converting the result back to Fahrenheit recovers the input |
| WeatherDay.CelsiusFixedPoints | Parser.py:135-137 | 32 °F is 0 °C and 212 °F is 100 °C |
| WeatherDay.CelsiusStrictlyIncreasing | Parser.py:135-137 | the conversion is strictly increasing |
| WeatherDay.CeilDivBounds | Parser.py:70 | the ceiling quotient giving the length of `np.arange` is the least multiple count reaching the span |
| WeatherDay.Arange | Parser.py:70 | definition of `np.arange(start, stop, step)`, with length the ceiling of the span over the step or zero; `ArangeWithin` and `ArangeHas288` pin it |
| WeatherDay.ArangeWithin | Parser.py:70 | for a positive step every grid point is `start + k*step` and lies in `[start, stop)` |
| WeatherDay.CeilDivIs288 | Parser.py:58-71 | the grid length is 288 exactly when the span is over 287 and at most 288 steps |
| WeatherDay.ArangeHas288 | Parser.py:58-71 | `np.arange` has 288 entries exactly when the span is over 287 and at most 288 steps |
| WeatherDay.NegativeStepGridIsEmpty | Parser.py:70 | a negative step over a forward span gives an empty grid |
| WeatherDay.RegularDayGrid | Parser.py:67-71 | over a 24-hour span the grid has 288 slots exactly for a 5-minute step |
| WeatherDay.InsertKey | Parser.py:107 | adding a key to an ascending key list keeps it strictly ascending and adds just that key |
| WeatherDay.SortedKeys | Parser.py:107 | the union index is strictly ascending and holds exactly the given keys |
| WeatherDay.WriteIfPresent | Parser.py:90-103 | one assignment of the record loop sets only its own cell: the variable if the record has it (temperature in Celsius), else unset |
| WeatherDay.FillRow | Parser.py:87-103 | one pass of the record loop yields the record's source row |
| WeatherDay.BuildHourlyTable | Parser.py:84-104 | the loop builds the 24-row source table, one row per hourly record in order |
| WeatherDay.Times | Parser.py:104 | `set_index('time')` on the source table: one index entry per row, and a time is in the index exactly when some row carries it |
| WeatherDay.Combine | Parser.py:107 | definition of `combine_first` of the all-unset grid frame with the source table; `CombinedCells` and `DaySeriesKeys` pin it |
| WeatherDay.FindHour | Parser.py:107 | finds a row carrying the key, or reports that none does |
| WeatherDay.DaySeries | Parser.py:53-110 | definition of `interpolate_data` as a value: the frame or the exception, checked in the source's order; `DaySeriesRequirements`, `DaySeriesKeys` and `HourlyValueAtItsKey` pin it |
| WeatherDay.InterpolateData | Parser.py:53-110 | the method returns the day frame or the exception `DaySeries` defines, in the source's order of checks |
| WeatherDay.DaySeriesRequirements | Parser.py:67-71 | a frame needs at least 24 hourly records, a nonzero step and a grid of exactly 288 slots; fewer records and a zero step give their errors |
| WeatherDay.CombinedCells | Parser.py:86-107 | before interpolation, a grid-only key is unset in every column and an hourly key holds that record's cell |
| WeatherDay.DaySeriesKeys | Parser.py:58-107 | the frame's keys ascend and are exactly the grid slots together with the hourly times |
| WeatherDay.HourlyValueAtItsKey | Parser.py:86-109 | each hourly time is a key of the frame and each variable the record carries appears there unchanged, temperature in Celsius |
| WeatherDay.RegularDayNeedsFiveMinuteStep | Parser.py:58-71 | for hourly records an hour apart the frame is produced exactly when the step is 5 minutes |
| Interpolation.LastKnownBefore | Parser.py:109 | finds the nearest known cell before a position, or reports that all earlier cells are unset |
| Interpolation.FirstKnownAfter | Parser.py:109 | finds the nearest known cell after a position, or reports that all later cells are unset |
| Interpolation.FillCell | Parser.py:109 | definition of one interpolated cell: a known cell, a cell on the line between its nearest known neighbours, the last known value after the end, or unset before the start; `GapFilledOnLine` and `TrailingGapRepeatsLast` pin it |
| Interpolation.Interpolate | Parser.py:109 | interpolation keeps the column's length |
| Interpolation.InterpolateKeepsKnown | Parser.py:109 | known cells are unchanged, and a cell stays unset exactly when no cell at or before it is known |
| Interpolation.LerpBetween | Parser.py:109 | a point strictly inside the line between two values lies between them |
| Interpolation.GapFilledOnLine | Parser.py:109 | a cell between two consecutive known cells gets the value on the line between them, by position |
| Interpolation.GapBetweenAnchors | Parser.py:109 | such a cell is set and lies between the two known values |
| Interpolation.TrailingGapRepeatsLast | Parser.py:109 | every cell after the last known cell repeats its value |
| Interpolation.AllUnsetStaysUnset | Parser.py:109 | a column with no known cell stays unset |
| Checkpoint.InsertPermutes | Parser.py:130 | one insertion step of the sort adds exactly the inserted row |
| Checkpoint.InsertSorted | Parser.py:130 | one insertion step keeps a time-sorted table sorted |
| Checkpoint.SortByTime | Parser.py:130 | definition of `sort_index` as an insertion sort on time; `SortByTimeSortsAndPermutes` pins it |
| Checkpoint.SortByTimeSortsAndPermutes | Parser.py:129-130 | `sort_index` returns the rows ascending by time, as a permutation of its input |
| Checkpoint.DropDuplicates | Parser.py:131 | definition of `drop_duplicates(keep='first')`: each row whose key was not met before, in order; `DedupKeeps`, `DedupEarliest` and `DedupCovers` pin it |
| Checkpoint.DedupKeeps | Parser.py:131 | `drop_duplicates` keeps input rows only, each with a key not met before, all keys distinct |
| Checkpoint.DedupEarliest | Parser.py:130-131 | on a time-sorted table each kept row is no later than every row sharing its key |
| Checkpoint.DedupCovers | Parser.py:131 | every key of the input survives on some kept row |
| Checkpoint.DedupOfSortedPermutation | Parser-Sun.py:56-57 | for any time-sorted order of the rows (ties in any order) the result is sorted, key-unique, drawn from the rows, covers every key and keeps each key's earliest time |
| Checkpoint.Merge | Parser.py:129-131 | definition of the checkpoint merge shared by both saves: append, sort by time, drop duplicate keys; `MergeProperties` and `MergeKeepsEarliest` pin it |
| Checkpoint.MergeProperties | Parser.py:129-131 | the merged table is sorted, key-unique, drawn from the stored and new rows, covers all their keys and keeps each key's earliest row |
| Checkpoint.MergeKeepsEarliest | Parser.py:129-131 | no surviving row with a given row's key is later than it |
| Checkpoint.MergeCoverIndex | Parser.py:129-131 | a given row's key survives, at a named position |
| Checkpoint.MergeIdempotent | Parser-Sun.py:54-57 | merging the same rows into the merged table leaves it unchanged |
| Checkpoint.ResaveKeepsOnlyMergedKeys | Parser.py:129-131 | re-merging the same rows under any tie order keeps only key/time pairs of the first merge |
| Checkpoint.ResaveKeepsEveryMergedKey | Parser.py:129-131 | re-merging the same rows under any tie order keeps every key/time pair of the first merge |
| SensorLog.DayStarts | Parser.py:28-37 | the listed rows are exactly those whose label differs from the previous row's (or from `''` for row 0), ascending |
| SensorLog.Multiples | Parser.py:33-47 | the checkpoint counts are exactly the positive multiples of the interval up to `k`, ascending |
| SensorLog.MultiplesNext | Parser.py:33-47 | one more row adds its count exactly when it is a positive multiple of the interval |
| SensorLog.MultiplesCount | Parser.py:47-49 | there are `k / interval` periodic checkpoints among the first `k` rows |
| SensorLog.ReappearingDayStartsAgain | Parser.py:36-37 | a label that comes back after another label is opened again at a later row |
| SensorLog.SameDayStartsOnce | Parser.py:36-37 | a run of consecutive rows with one label adds no day start after its first row |
| WeatherPipeline.Matching | Parser.py:122 | the slots matched by a key are slots of the data with that key, and some are found when any exists |
| WeatherPipeline.MatchingComplete | Parser.py:122 | a key matches every slot it keys, as many times as the weather data holds that slot, and no other slot |
| WeatherPipeline.MatchingConcat | Parser.py:122 | over stacked weather data the matches of the earlier days come first, in stacking order |
| WeatherPipeline.MatchingDistinct | Parser.py:122 | with distinct slot keys a key matches at most one slot |
| WeatherPipeline.JoinWeather | Parser.py:122 | definition of the left join: per kept log row, one row per matching slot, or one row with no weather; `JoinOrigin`, `JoinOneToOne` and `JoinedRowOf` pin it |
| WeatherPipeline.JoinOrigin | Parser.py:117-122 | every joined row is one of the kept log rows, keyed by its slot, with that slot's weather or none |
| WeatherPipeline.JoinOneToOne | Parser.py:117-122 | with distinct slot keys the join keeps the kept rows one-to-one and in order, each with its slot's weather |
| WeatherPipeline.SaveWeather | Parser.py:113-132 | definition of the weather `save`: the exceptions in the source's order, else the merge of the joined rows keyed on `hora`; the lemmas below pin it |
| WeatherPipeline.SaveWeatherFails | Parser.py:117-122 | a save fails exactly for a series longer than the log, a log that has a `time` column, or no weather data, with that error order |
| WeatherPipeline.SavedWeatherOrdered | Parser.py:129-131 | the saved table ascends by time and no two rows share a `hora` |
| WeatherPipeline.SavedWeatherRowsOrigin | Parser.py:117-131 | each saved row is a stored row or one of the first `len(time_series)` log rows keyed by its slot |
| WeatherPipeline.SavedWeatherKeepsHoras | Parser.py:117-131 | every `hora` of the stored table and of the kept log rows survives, on a row no later than it |
| WeatherPipeline.JoinedRowOf | Parser.py:117-122 | each kept log row appears in the join, keyed by its slot |
| WeatherPipeline.SaveWeatherIdempotent | Parser.py:117-132 | saving the same series and weather again leaves the table unchanged |
| WeatherPipeline.ResaveWeatherAnyTieOrder | Parser.py:129-131 | saving the same rows again under any tie order of the time sort keeps exactly the (`hora`, time) pairs of the first save |
| WeatherPipeline.SameHoraOfLaterDayDropped | Parser.py:131 | a new row whose `hora` is stored at an earlier time does not survive, even from another day |
| WeatherDriver.WeatherStep | Parser.py:33-49 | definition of one pass of the loop body: quantize and count, the day branch, the checkpoint test; `StepDecomposed`, `DayChangeEffects` and `AfterDayEffects` pin it |
| WeatherDriver.WeatherLoop | Parser.py:28-49 | definition of the loop as a fold over the rows, stopping at the first exception; `LoopTraced` and `LoopFailureIsFinal` pin it |
| WeatherDriver.WeatherRun | Parser.py:28-50 | definition of the run: the loop, then the final save; `RunTraced` and `RunTableOrdered` pin it |
| WeatherDriver.StoredAfterRun | Parser.py:28-50 | definition of the stored table when the run ends: the final save's table, or the last one written before an exception |
| WeatherDriver.FailureKeepsStoredTable | Parser.py:32-50 | when a pass raises, the run fails and the stored table is the one held before that pass |
| WeatherDriver.FinalSaveFailureKeepsStoredTable | Parser.py:47-50 | when only the final save raises, the stored table is the one the loop ended with |
| WeatherDriver.TableChangesAtCheckpoints | Parser.py:47-49 | a pass changes the stored table only at a positive multiple of the interval, and then to the save of everything gathered |
| WeatherDriver.TableSinceCheckpoint | Parser.py:32-49 | with no checkpoint count in `(c, k]`, the table after `k` rows is the table after `c` rows |
| WeatherDriver.FetchDay | Parser.py:41-42 | the forecast call plus `interpolate_data` gives the day's slots or its error |
| WeatherDriver.ProcessRow | Parser.py:33-49 | one pass of the loop body yields the fold's step |
| WeatherDriver.SaveCheckpoint | Parser.py:47-50 | a checkpoint saves the whole series and records its length |
| WeatherDriver.Advance | Parser.py:32-49 | a pass from the fold's state yields the fold's next state, and an exception there is the run's outcome |
| WeatherDriver.FinalSave | Parser.py:50 | the save after the loop completes the run |
| WeatherDriver.RunWeather | Parser.py:28-50 | the loop returns exactly the run the fold defines |
| WeatherDriver.LoopFailureIsFinal | Parser.py:32-50 | an exception inside the loop is the outcome of the run |
| WeatherDriver.DayChangeEffects | Parser.py:36-46 | the day branch fetches once when the label differs, stacks that day's weather, and changes nothing else |
| WeatherDriver.AfterDayEffects | Parser.py:47-49 | the checkpoint test saves exactly at a positive multiple of the interval and changes nothing else |
| WeatherDriver.StepTraced | Parser.py:32-49 | one successful pass extends what the loop has done over `k` rows to `k + 1` |
| WeatherDriver.LoopTraced | Parser.py:28-49 | after `k` rows: one quantized slot per row, `current_day` the last label, one fetch per day start at its slot, the weather of exactly those fetches, and one checkpoint per completed interval |
| WeatherDriver.FetchOncePerDayStart | Parser.py:28-42 | the driver fetches exactly once for each row that opens a day, in row order, passing that row's slot |
| WeatherDriver.ReappearingDayFetchedAgain | Parser.py:36-42 | a date that reappears after another date is fetched again |
| WeatherDriver.RunTraced | Parser.py:32-50 | a completed run has one slot per row, one fetch per day start, and checkpoints at every multiple of the interval plus the final one, each of the whole series |
| WeatherDriver.RunTableOrdered | Parser.py:129-131 | a completed run leaves a table ascending by time with each `hora` once |
| WeatherDriver.ZeroStepFails | Parser.py:142-144 | a zero step stops the run at the first row with ZeroDivisionError |
| WeatherDriver.TimeColumnFails | Parser.py:118 | a log that already has a `time` column never completes, and fails at the final save once the loop does |
| WeatherDriver.EmptyLogFails | Parser.py:122 | an empty log reaches the final save with no weather data and fails there |
| SolarPipeline.SaveSolar | Parser-Sun.py:42-58 | definition of the solar `save`: the exceptions in the source's order, else the merge of the rows with their angles keyed on (`hora`, `dia`); the lemmas below pin it |
| SolarPipeline.SaveSolarFails | Parser-Sun.py:46-48 | a save fails exactly for a series longer than the log or a log without a `time` column, with that error order |
| SolarPipeline.SavedSolarOrdered | Parser-Sun.py:55-57 | the saved table ascends by time and no two rows share (`hora`, `dia`) |
| SolarPipeline.AttachedRow | Parser-Sun.py:46-47 | log row `j` is saved with angle `j` of the series |
| SolarPipeline.SavedSolarRowsOrigin | Parser-Sun.py:46-57 | each saved row is a stored row or one of the first `len(sun_series)` log rows with the angle at its own position |
| SolarPipeline.SavedSolarKeepsKeys | Parser-Sun.py:46-57 | every (`hora`, `dia`) of the stored table and of the kept rows survives, on a row no later than it |
| SolarPipeline.ResaveSolarAnyTieOrder | Parser-Sun.py:55-57 | saving the same rows again under any tie order of the time sort keeps exactly the ((`hora`, `dia`), time) pairs of the first save |
| SolarPipeline.SaveSolarIdempotent | Parser-Sun.py:54-58 | re-saving the same series leaves the table unchanged |
| SolarDriver.SolarStep | Parser-Sun.py:27-38 | definition of one pass of the loop body: quantize, count and sample the angle, note the label, the checkpoint test; `StepDecomposed`, `DayLabelIsInert` and `AfterDayEffects` pin it |
| SolarDriver.SolarLoop | Parser-Sun.py:23-38 | definition of the loop as a fold over the rows, stopping at the first exception; `LoopTraced` and `LoopFailureIsFinal` pin it |
| SolarDriver.SolarRun | Parser-Sun.py:23-39 | definition of the run: the loop, then the final save; `RunTraced` and `RunTableOrdered` pin it |
| SolarDriver.StoredAfterRun | Parser-Sun.py:23-39 | definition of the stored table when the run ends: the final save's table, or the last one written before an exception |
| SolarDriver.FailureKeepsStoredTable | Parser-Sun.py:26-39 | when a pass raises, the run fails and the stored table is the one held before that pass |
| SolarDriver.FinalSaveFailureKeepsStoredTable | Parser-Sun.py:36-39 | when only the final save raises, the stored table is the one the loop ended with |
| SolarDriver.TableChangesAtCheckpoints | Parser-Sun.py:36-38 | a pass changes the stored table only at a positive multiple of the interval, and then to the save of everything gathered |
| SolarDriver.TableSinceCheckpoint | Parser-Sun.py:26-38 | with no checkpoint count in `(c, k]`, the table after `k` rows is the table after `c` rows |
| SolarDriver.DayLabelIsInert | Parser-Sun.py:31-33 | the label held before a pass has no effect on that pass: series, count, calls and table come out the same |
| SolarDriver.SunAngle | Parser-Sun.py:29 | the altitude is requested at the slot with the location's first coordinate passed twice |
| SolarDriver.ProcessRow | Parser-Sun.py:27-38 | one pass of the loop body yields the fold's step |
| SolarDriver.SaveCheckpoint | Parser-Sun.py:36-39 | a checkpoint saves the whole series and records its length |
| SolarDriver.Advance | Parser-Sun.py:26-38 | a pass from the fold's state yields the fold's next state, and an exception there is the run's outcome |
| SolarDriver.FinalSave | Parser-Sun.py:39 | the save after the loop completes the run |
| SolarDriver.RunSolar | Parser-Sun.py:23-39 | the loop returns exactly the run the fold defines |
| SolarDriver.LoopFailureIsFinal | Parser-Sun.py:26-39 | an exception inside the loop is the outcome of the run |
| SolarDriver.AfterDayEffects | Parser-Sun.py:36-38 | the checkpoint test saves exactly at a positive multiple of the interval and changes nothing else |
| SolarDriver.StepTraced | Parser-Sun.py:26-38 | one successful pass extends what the loop has done over `k` rows to `k + 1` |
| SolarDriver.LoopTraced | Parser-Sun.py:23-38 | after `k` rows: one angle per row taken at its quantized epoch with the first coordinate twice, `current_day` the last label, one checkpoint per completed interval |
| SolarDriver.RunTraced | Parser-Sun.py:26-39 | a completed run has one angle per row and checkpoints at every multiple of the interval plus the final one, each of the whole series |
| SolarDriver.RunTableOrdered | Parser-Sun.py:55-57 | a completed run leaves a table ascending by time with each (`hora`, `dia`) once |
| SolarDriver.ZeroStepFails | Parser-Sun.py:63-65 | a zero step stops the run at the first row with ZeroDivisionError |
| SolarDriver.TimeColumnMissingFails | Parser-Sun.py:48 | a log without a `time` column never completes, and fails at the final save once the loop does |

## Left out

- File I/O is not modelled: reading the log CSV, the stored tables `darkskyDB.csv` and `out-sun.csv`, writing them back, the header written for a missing file, and `os.path.isfile`. The stored table is a value, and a missing file is the empty table.
- Loading `user.json` and `sys.argv` is not modelled. The step, the location and the forecast key become environment parameters.
- Prints are not modelled.
- The darksky `forecast` call and pysolar's `get_altitude` are foreign calls. They are uninterpreted function parameters. The calls made are recorded in the driver state.
- Exceptions raised by those foreign calls are not modelled: a failing `forecast` request (Parser.py:41) or `get_altitude` call (Parser-Sun.py:29) always returns a value in the model.
- Exceptions from the input data are not modelled: `pd.to_datetime` on a `dia + hora` it cannot parse (Parser.py:34, Parser-Sun.py:28), a forecast result without `hourly` or `data` (Parser.py:67), and a `join` whose two frames share a column name (Parser.py:122). The clock is total and the forecast result is the sequence of hourly records.
- `pd.to_datetime`, `time.mktime`, the local time zone, `fromtimestamp` and the ISO label are not modelled. A clock parameter gives each row's integer epoch.
- Floating point is not modelled. Values are exact `real`s, epochs are integers, and NaN is `None`.
- The solar file's header is written with the weather column list (Parser-Sun.py:50-52). `DataFrame.append` aligns columns by name, so the stored solar table gains a `sun_angle` column and keeps the seven weather columns of that header, which stay empty. Columns are part of the CSV I/O and are not modelled; a solar row carries only its own fields.
- The `'time' in d` guard of the record loop is not modelled, because every hourly record carries a time.
- Two hourly records with the same time are modelled as an error (`DuplicateHourlyTime`). This is a modelling choice, not derived from the code: what `combine_first` does with a duplicated index depends on the pandas version, and the model does not follow that path.
- A log that already has a `sun_angle` column would make the solar insert fail. That case is not modelled.
- Column order in the frames and tables is not modelled; rows are records.
- The log's own `time` column, which the solar save indexes and sorts by (Parser-Sun.py:48, Parser-Sun.py:56), is assumed to hold integers that sort numerically. The source does not say what it holds, and `read_csv` could give strings that sort lexicographically.
- When slot keys repeat, pandas' join may order the joined rows differently. The join is modelled in log order, one row per matching slot.
- `save_interval` is the constant 10000 in both scripts (Parser.py:12). The drivers take it as a parameter and keep the source's `save_interval > 0` guard.
- Interpolation.GapBetweenAnchors: the between-values claim is stated for consecutive known cells only, since a value between non-adjacent anchors need not lie between those two.
- Interpolation.TrailingGapRepeatsLast: cells after the last known value are filled with that value, as pandas' forward fill does, so no "no extrapolation" claim is made for the trailing end.
- WeatherPipeline.SaveWeatherIdempotent: exact idempotence holds for the modelled stable sort only. `sort_index` uses an unstable quicksort, so under another tie order a re-save may keep a different row of equal time and key. What holds for every tie order is `ResaveWeatherAnyTieOrder`: the (`hora`, time) pairs stay the same.
- SolarPipeline.SaveSolarIdempotent: exact idempotence holds for the modelled stable sort only, for the same reason. What holds for every tie order is `ResaveSolarAnyTieOrder`: the ((`hora`, `dia`), time) pairs stay the same.
- Checkpoint.MergeIdempotent: exact idempotence is proved for the modelled stable sort. For any other tie order, only the key/time pairs are shown to stay the same (`ResaveKeepsOnlyMergedKeys`, `ResaveKeepsEveryMergedKey`).
- The weather save raises TypeError when `data_set` is still None. It is modelled as `NoWeatherData`, checked after the two frame errors.
