# Plotting core of `ecs` (environment charts), modelled in Dafny

`plot.py` turns a list of timescale tokens such as `"15min, 6H, 3D"` into
charts of the humidity and temperature readings stored in the database.
The `Plot` object does this in three steps:

1. It picks one fetch window for all tokens (`get_sql_query`). The unit is
   chosen by marker precedence `M`, then `D`, then `H`, then `min`, over the
   tab-joined tokens. The magnitude is the largest integer prefix among the
   tokens of that unit.
2. It starts one worker per token, metric and size (`plot_dataframe`): the
   full-size chart first, then its thumbnail.
3. Each worker (`plot_worker`) reads its settings and its style, and plans
   the x-axis tickers. There is one independent branch per marker `D`, `H`
   and `min`, and none for `M`. The worker also chooses the y formatter and
   the line colour by metric, and the file the chart is saved to.

The model keeps the source's structure:

- Python's string and number builtins are `PyStr` (`in`, `split`, `join`)
  and `PyNum` (`int()`, `str()`, `round()` on an exact quotient, `range()`).
  They follow Python where the core depends on them: `split` cuts at the
  leftmost occurrence, `int()` strips the whitespace it strips (not the
  ASCII separators U+001C to U+001F, which `str.isspace` would accept) and
  accepts a sign and `_` between digits, and `round` breaks ties towards the
  even integer. The limits of this are listed under "Left out".
- `Query`, `Ticks`, `Style` and `Worker` state the decisions as functions,
  with lemmas about what they mean.
- `Plotter` holds the jobs and `class Plot`. Its methods follow the source
  loop by loop, and each one is proved equal to the specifying function.
- The exceptions the modelled steps raise are `Exception` values in a
  `Result`: `KeyError`, `ValueError` from `int()`, `ValueError` from a zero
  `range` step, `ZeroDivisionError`, `UnboundLocalError` and
  `AttributeError`. Within the modelled steps they are raised at the point
  and in the order the source raises them. Steps that are not modelled run
  earlier in the source and can raise first: the database connection
  (`plot.py:19-25`, before the query is used) and `df.last`
  (`plot.py:71`, before the settings are read). Exceptions the model does
  not raise at all (`OverflowError`, the `int()` digit limit) are listed
  under "Left out".

### The code differs from its comments and documentation in these ways

The model follows the code in each case.

- **Window precedence.** The comment at `plot.py:36` promises the rows of the
  greatest timescale. The code picks the unit by marker precedence, so
  `"90min, 1H"` fetches `INTERVAL 1 HOUR`, thirty minutes short of what the
  `90min` chart needs (`Query.HourBeatsNinetyMinutes`).
- **Halving loop ticks.** The comment at `plot.py:135` speaks of 8 major ticks.
  `20min` gives `round(20/8) = 2`, a tick every two minutes, so ten ticks
  (`Ticks.MinuteStepExamples`).
- **Job count.** Three tokens start twelve workers, not six: every chart
  also has a thumbnail (`Plotter.ThreeScalesDispatch`).
- **A `0min` token.** It does not loop forever. The divisor `m` is a float
  that halves from 8 until it underflows to `0.0`, after 1078 halvings.
  The next `0 / 0.0` raises `ZeroDivisionError`. The model tracks the
  exponent of `m` and raises at the same point (`Ticks.MinuteStepOfZero`).

## Model

| member | source | states |
|---|---|---|
| PyStr.Find | plot.py:53 | a found index is an occurrence of the word |
| PyStr.FindLeftmost | plot.py:53 | `Find` gives the leftmost occurrence; it gives None exactly when the word does not occur |
| PyStr.FindStep | plot.py:53 | the occurrences in the tail are those of the string shifted by one, so the leftmost shifts too |
| PyStr.FindAt | plot.py:53 | an occurrence with no earlier copy of the word's first character is the one found |
| PyStr.FindNone | plot.py:53 | a word whose first character is absent is not found |
| PyStr.NothingBeforeLeftmost | plot.py:53 | the text before the leftmost occurrence does not contain the word |
| PyStr.Join | plot.py:37 | `'\t'.join(self.times)`; `SplitJoin` and `JoinContains` state its properties |
| PyStr.Before | plot.py:53 | `time.split(max_t)[0]`, the text before the first occurrence; `FindLeftmost` and `NothingBeforeLeftmost` state what it is |
| PyStr.Split | plot.py:60 | `split` always yields at least one piece |
| PyStr.SplitAt | plot.py:60 | splitting cuts at the leftmost separator, then splits the rest |
| PyStr.SplitFirst | plot.py:60 | a first piece free of the separator's first character is split off whole |
| PyStr.SplitTwo | plot.py:60 | two such pieces joined by the separator split back into those two |
| PyStr.SplitThree | plot.py:60 | three such pieces joined by the separator split back into those three |
| PyStr.SplitJoin | plot.py:60 | joining the pieces with the separator restores the string (the inverse of `split`) |
| PyStr.SplitPiecesLackSeparator | plot.py:60 | no piece contains the separator |
| PyStr.PiecesAfterLeftmost | plot.py:60 | the inductive step: the first piece and the pieces of the rest all lack the separator |
| PyStr.ContainsAroundSeparator | plot.py:37-38 | a word without character `c` occurs in `a + c + b` exactly when it occurs in `a` or in `b` |
| PyStr.JoinContains | plot.py:37-49 | a word without the join character occurs in the join exactly when it occurs in some part |
| PyStr.ContainsChar | plot.py:38-46 | a one-character marker occurs exactly when the character does |
| PyNum.TrimLeft | plot.py:53 | `int()`'s left strip removes only whitespace, a prefix of the text, and stops at a non-space |
| PyNum.TrimRight | plot.py:53 | `int()`'s right strip removes only whitespace, a suffix of the text, and stops at a non-space |
| PyNum.Strip | plot.py:53 | the whitespace `int()` removes from both ends before parsing; `TrimLeft` and `TrimRight` state what it removes |
| PyNum.SeparatorIsNotStripped | plot.py:53 | `int()` of U+001C followed by digits raises `ValueError`: the separator is not stripped |
| PyNum.ParseInt | plot.py:53 | `int(text)` in base 10, with `ValueError` as None; `ParseUnsigned`, `ParseSigned` and `ParseIntOfIntToString` state what it accepts |
| PyNum.IntToString | plot.py:56 | `str(n)`; `ParseIntOfIntToString` states that `int()` reads it back |
| PyNum.StripUnchanged | plot.py:53 | text with no whitespace at either end is not changed by stripping |
| PyNum.DigitsAreGroup | plot.py:53 | plain digits form a digit group `int()` accepts |
| PyNum.ParseUnsigned | plot.py:53 | `int()` of a stripped digit group is its decimal value |
| PyNum.ParseSigned | plot.py:53 | `int()` of a stripped minus sign and digit group is the negated value |
| PyNum.NatToString | plot.py:56 | `str(n)` of a natural number is non-empty and all digits |
| PyNum.DigitsValueOfNatToString | plot.py:56 | the digits of `str(n)` have the value `n` |
| PyNum.ParseNatural | plot.py:53-56 | `int(str(n)) == n` for natural `n` |
| PyNum.ParseNegative | plot.py:53-56 | `int(str(-m)) == -m` for positive `m` |
| PyNum.ParseIntOfIntToString | plot.py:53-56 | `int(str(n)) == n` for every integer |
| PyNum.RoundHalfEven | plot.py:139 | `round(p / q)` is within one half of `p / q`, and is even on a tie |
| PyNum.RoundCases | plot.py:139 | the floor is nearest when the remainder is at most half of `q`, otherwise the floor plus one; a tie means a remainder of exactly half |
| PyNum.Range | plot.py:121 | `range` raises `ValueError` exactly when the step is zero |
| PyNum.RangeElements | plot.py:121 | with a positive step, element `i` is `start + i * step`, each below `stop`, and the next one would not be |
| PyNum.RangeFromZeroNegativeStep | plot.py:130 | a negative step from 0 to a non-negative stop gives an empty list |
| PyNum.RangeFromZeroAscending | plot.py:141 | with a positive step from 0 the list is strictly ascending |
| PyNum.RangeFromZeroMembers | plot.py:141 | with a positive step from 0 the members are exactly the multiples of the step below `stop` |
| PyNum.RangeMemberIsMultiple | plot.py:145 | every member is a multiple of the step in `[0, stop)` |
| PyNum.MultipleIsRangeMember | plot.py:145 | every multiple of the step in `[0, stop)` is a member |
| Query.ChooseUnit | plot.py:37-49 | the `if`/`elif` chain on the tab-joined tokens; `ChooseUnitPrecedence` states the choice |
| Query.Magnitude | plot.py:53 | `int(time.split(max_t)[0])`, raising the `ValueError` of the prefix; `MagnitudeOfText` states its inverse |
| Query.MaxMagnitude | plot.py:50-55 | the value of `max_n` after the loop, or the first `ValueError`; `MaxMagnitudeIsUpperBound` and `MaxMagnitudeIsAttained` state that it is the maximum |
| Query.SqlQuery | plot.py:35-57 | what `get_sql_query` returns or raises; `SqlQueryWindow`, `SqlQueryNoUnit` and `ParseQueryText` state it |
| Query.JoinedMarker | plot.py:37-38 | a marker occurs in the tab-joined tokens exactly when some single token contains it |
| Query.ChooseUnitPrecedence | plot.py:37-49 | the unit is MONTH iff a token holds `M`; DAY iff none holds `M` and one holds `D`; HOUR and MINUTE likewise; none iff no token holds any marker |
| Query.MagnitudeOfText | plot.py:53 | a token whose prefix is the text of `n` is read as `n` |
| Query.MaxMagnitudeSucceeds | plot.py:50-55 | the scan succeeds exactly when every token holding the marker has an integer prefix |
| Query.MaxMagnitudeStep | plot.py:51-55 | one iteration: a token without the marker keeps `max_n`, one with it raises `max_n` to its prefix if larger |
| Query.MaxMagnitudeIsUpperBound | plot.py:50-55 | a successful result bounds the prefix of every token holding the marker |
| Query.MaxMagnitudeIsAttained | plot.py:50-55 | a successful result is 0 or the prefix of one of the tokens holding the marker |
| Query.MaxMagnitudeFirstError | plot.py:51-53 | a failure is the `ValueError` of the first token whose prefix does not parse; all earlier tokens parse |
| Query.MaxMagnitudeFailureSticks | plot.py:51-53 | once the scan has raised, the tokens after that point do not change the outcome |
| Query.ScanSkips | plot.py:52 | a token without the marker leaves the scan unchanged |
| Query.ScanTakes | plot.py:52-55 | a token with the marker raises the scan to its prefix if larger |
| Query.ScanRaises | plot.py:52-53 | a token with the marker and an unparsable prefix makes the scan raise that token's `ValueError` |
| Query.ScanSingleSkip | plot.py:50-52 | one token without the marker leaves `max_n` at 0 |
| Query.ScanPair | plot.py:50-55 | a token without the marker, then one with prefix `v`, gives `v` |
| Query.IntervalUnit | plot.py:40-49 | a recognised unit is the keyword the interval ends in |
| Query.UnitSuffix | plot.py:40-49 | `digits + keyword` ends in that keyword and in no other unit's keyword |
| Query.IntervalUnitOf | plot.py:56 | the unit of `digits + keyword` is read back as that unit |
| Query.ParseIntervalText | plot.py:56 | the interval `str(n) + keyword` is read back as `(n, unit)` |
| Query.Framed | plot.py:56-57 | the text between the query's fixed head and tail is given back unchanged |
| Query.ParseQueryText | plot.py:56-57 | the query text names exactly the magnitude and the unit it was built from |
| Query.SqlQueryWindow | plot.py:35-57 | a successful query asks for the chosen unit over the scanned magnitude |
| Query.SqlQueryNoUnit | plot.py:37-57 | with no marker in any token, the call raises `UnboundLocalError` |
| Query.NinetyMinutesOneHourUnit | plot.py:37-46 | `["90min", "1H"]` chooses HOUR |
| Query.OneHourPrefix | plot.py:52-53 | `"1H"` holds `H` and its prefix is 1 |
| Query.NinetyMinutesHaveNoHour | plot.py:52 | `"90min"` is skipped when scanning for `H` |
| Query.NinetyMinutesOneHourScan | plot.py:50-55 | scanning `["90min", "1H"]` for `H` gives 1 |
| Query.HourBeatsNinetyMinutes | plot.py:35-57 | `"90min, 1H"` fetches `INTERVAL 1 HOUR` |
| Ticks.HalvingSearch | plot.py:138-140 | the `while n == 0` loop from the iteration where `m == 2^e`; `HalvingSearchOfZero` states its failure |
| Ticks.MinuteStep | plot.py:136-140 | the loop from `m = 8`; `MinuteStepWithinFourIterations`, `MinuteStepSucceeds` and `MinuteStepPositive` state its result |
| Ticks.DayTicks | plot.py:113-122 | the `D` branch; `DayTicksShape` states what it sets |
| Ticks.HourTicks | plot.py:123-131 | the `H` branch; `HourTicksShape` states what it sets |
| Ticks.MinuteTicks | plot.py:132-146 | the `min` branch; `MinuteTicksShape` states what it sets |
| Ticks.TickPlan | plot.py:113-146 | the three branches in order; `TickPlanSucceeds`, `TickPlanMajor` and `TickPlanMinor` state the plan |
| Ticks.MinuteStepWithinFourIterations | plot.py:136-141 | for nonzero `k` the step is the first nonzero of `round(k/8)`, `round(k/4)`, `round(k/2)` and `k` |
| Ticks.MinuteStepPositive | plot.py:136-141 | a positive `k` gives a positive step: 1 up to `k = 4`, otherwise `round(k/8)`, with `8s - 4 <= k <= 8s + 4` |
| Ticks.HalvingSearchOfZero | plot.py:136-140 | with `k = 0`, halving from any exponent ends in `ZeroDivisionError` |
| Ticks.MinuteStepOfZero | plot.py:136-140 | a `0min` token raises `ZeroDivisionError` |
| Ticks.MinuteStepSucceeds | plot.py:136-141 | the search succeeds exactly for nonzero `k`, and then gives a nonzero step |
| Ticks.MinuteStepExamples | plot.py:135-141 | `15min` gives step 2, `4min` step 1, `20min` step 2 |
| Ticks.SearchMinuteStep | plot.py:136-140 | the `while n == 0` loop computes `MinuteStep` |
| Ticks.PlanTicks | plot.py:113-146 | the three tick branches, run in order, compute `TickPlan` |
| Ticks.TickPlanSucceeds | plot.py:113-146 | tick planning succeeds exactly when each branch that fires parses its prefix, the full-size chart has nonzero `D` and `H` minor steps, and the minute prefix is nonzero |
| Ticks.DayTicksShape | plot.py:113-122 | the `D` branch sets daily major ticks, and hourly minor ticks every `n` hours for the full-size chart only |
| Ticks.HourTicksShape | plot.py:123-131 | the `H` branch sets hourly major ticks, and minor ticks every `2n` minutes for the full-size chart only |
| Ticks.MinuteTicksShape | plot.py:132-146 | the `min` branch sets minute major ticks at the searched step, and second ticks every `2k` for the full-size chart only |
| Ticks.TickPlanSteps | plot.py:113-146 | the plan is the three branches applied in turn, each to what the previous one left |
| Ticks.TickPlanMajor | plot.py:113-146 | the major ticker is that of the last branch that fires; for a `min` token it is `MinuteLocator(byminute=range(0, 60, step))` at the step the halving loop found, and that step is nonzero; a token without `D`, `H` and `min` keeps matplotlib's defaults |
| Ticks.TickPlanMinor | plot.py:120-146 | a thumbnail has no minor ticker; a full-size chart has the minor ticker of the last branch that fires, with a nonzero step |
| Ticks.TickPlanThumbSameMajor | plot.py:113-146 | the thumbnail and the full-size chart of a token share the major ticker |
| Ticks.FifteenMinutesPrefix | plot.py:139 | the text before `min` in `"15min"` is `"15"` |
| Ticks.FifteenMinutesMagnitude | plot.py:139 | `"15min"` has minute prefix 15 |
| Ticks.FifteenMinutesMarkers | plot.py:113-132 | `"15min"` fires the `min` branch alone |
| Ticks.FifteenMinuteThumbnail | plot.py:132-146 | a `15min` thumbnail ticks every 2 minutes and has no minor ticks |
| Ticks.MonthKeepsDefaultTicks | plot.py:113-146 | a `1M` token keeps the default tickers in both sizes |
| Style.Lookup | plot.py:73-105 | `c[section][key]` succeeds exactly when the setting exists, with its value |
| Style.ReadSection | plot.py:78-105 | the reads of one section; `ReadSectionSucceeds` and `ReadSectionFields` state them |
| Style.StyleOf | plot.py:78-105 | `large`, then `thumb` over it; `FullSizeUsesLarge` and `ThumbnailOverridesLarge` state the result |
| Style.SelectStyle | plot.py:78-105 | the fourteen `large` reads and thirteen `thumb` reassignments compute `StyleOf` |
| Style.ReadSectionSucceeds | plot.py:78-91 | reading a section succeeds exactly when it holds every key asked of it |
| Style.ReadSectionFields | plot.py:78-105 | each field of a section read is that key's value; the minor tick label size comes from the value passed in, if any |
| Style.FullSizeUsesLarge | plot.py:78-91 | a full-size style needs every `large` key and has exactly the `large` values |
| Style.ThumbnailOverridesLarge | plot.py:92-105 | a thumbnail style needs both sections; every value comes from `thumb` except `x_minor_tick_label_size`, which stays `large` |
| Worker.SavePath | plot.py:169-172 | the two `format` patterns; `SavePathShape`, `ThumbReadBack` and `JobPathsDistinct` state their properties |
| Worker.Display | plot.py:170-172 | `str()` of a configuration value as `format` renders it, None where not modelled |
| Worker.MetricLook | plot.py:148-152 | the colour and formatter by metric; `HumidityIsPercent` states the choice |
| Worker.WorkerPlan | plot.py:70-172 | what one worker plans or raises; `WorkerPlanSucceeds` and `WorkerPlanParts` state it |
| Worker.SavePathShape | plot.py:169-172 | both files lie in the save directory and end in `.png`; the thumbnail's is the full-size one with `_thumb` before `.png` |
| Worker.ThumbAndFullPathsDiffer | plot.py:169-172 | the two sizes of a job never write the same file |
| Worker.ThumbReadBack | plot.py:169-172 | for the configured metrics, a path ends in `_thumb.png` exactly when it is a thumbnail's |
| Worker.JobPathsDistinct | plot.py:169-172 | the four charts of one directory and token go to four different files |
| Worker.WorkerPlanSucceeds | plot.py:70-172 | a worker succeeds exactly when the `all` settings, the style and the tick plan exist and the save path can be formatted |
| Worker.HumidityIsPercent | plot.py:148-152 | the percent formatter is used exactly for Humidity, with the humidity colour; otherwise the temperature colour |
| Worker.WorkerPlanParts | plot.py:70-172 | a plan holds the selected style, the tick plan, the minor label size for the full-size chart only, and the save path |
| Worker.ThumbnailHasNoMinor | plot.py:120-165 | a thumbnail has neither minor ticks nor a minor label size |
| Worker.FullSizeMinorLabels | plot.py:164-165 | a full-size chart sizes its minor labels with the `large` value |
| Worker.PathTellsSize | plot.py:169-172 | for the configured metrics, a plan's file is a thumbnail's exactly when the plan is |
| Worker.SizesOfOneJob | plot.py:108-172 | the two sizes of a job share title, labels, colour, formatter and major ticker, and save to different files in the same directory |
| Plotter.JobsFor | plot.py:63-68 | the jobs of one token; `JobsForMembers` and `JobsForStep` state them |
| Plotter.JobList | plot.py:62-68 | the jobs of all tokens; `JobListOrder`, `JobListLength` and `JobListMembers` state them |
| Plotter.DispatchOf | plot.py:59-68 | the query and the jobs of `plot_dataframe`; `ThreeScalesDispatch` gives an instance |
| Plotter.JobsForStep | plot.py:63-68 | each metric adds its full-size job and then its thumbnail job |
| Plotter.JobListStep | plot.py:62-68 | each token appends its own jobs after those of the earlier tokens |
| Plotter.JobListLength | plot.py:62-68 | there are `2 * metrics * tokens` jobs |
| Plotter.JobListAround | plot.py:62-68 | the jobs are those of the earlier tokens, then token `i`'s, then those of the later tokens |
| Plotter.JobListAt | plot.py:62-68 | after the earlier tokens' jobs, each metric `j` of token `i` gives its full-size job and then its thumbnail job |
| Plotter.JobListOrder | plot.py:62-68 | job `2mi + 2j` is the full-size chart of token `i` and metric `j`, and the next job is its thumbnail |
| Plotter.JobsForMembers | plot.py:63-68 | a token's jobs are exactly that token with each metric, in both sizes |
| Plotter.JobListMembers | plot.py:62-68 | every (token, metric, size) is a job, and nothing else is |
| Plotter.EnumerateJobs | plot.py:62-68 | the nested `for` loops start exactly `JobList` |
| Plotter.FourJobsPerToken | plot.py:62-68 | with the two configured metrics every token starts four jobs |
| Plotter.ThreeScalesSplit | plot.py:60 | `"15min, 6H, 3D"` splits into its three tokens |
| Plotter.ThreeScalesUnit | plot.py:37-43 | those tokens choose DAY |
| Plotter.ThreeDaysPrefix | plot.py:52-53 | `"3D"` holds `D` and its prefix is 3 |
| Plotter.ShorterScalesHaveNoDay | plot.py:52 | `"15min"` and `"6H"` are skipped when scanning for `D` |
| Plotter.ScanDoubleSkip | plot.py:50-52 | two tokens without the marker leave `max_n` at 0 |
| Plotter.ScanTriple | plot.py:50-55 | two tokens without the marker, then one with prefix `v`, give `v` |
| Plotter.ThreeScalesScan | plot.py:50-55 | scanning those tokens for `D` gives 3 |
| Plotter.ThreeScalesDispatch | plot.py:59-68 | `"15min, 6H, 3D"` fetches `INTERVAL 3 DAY` and starts twelve jobs |
| Plotter.Plot.constructor | plot.py:12-14 | a new `Plot` has the two metrics, its configuration, and no tokens yet |
| Plotter.Plot.GetSqlQuery | plot.py:35-57 | the method computes `SqlQuery` of the kept tokens, or raises `AttributeError` before any are kept |
| Plotter.Plot.PlotDataframe | plot.py:59-68 | keeps the split tokens, then returns the query and the job list, or raises what the query raises |
| Plotter.Plot.PlotWorker | plot.py:70-172 | the worker's reads and branches compute `WorkerPlan` for its job |

## Left out

- Database access (`get_dataframe`, `plot.py:16-33`) is not modelled: the model stops at the query text it would run.
- The configuration object is a parameter: reading `graph.json` and the database settings (`config.py`) is I/O. The model reads `plot()` once, when the object is made (the `graph` field), instead of once per worker. This matches the source only as long as the file does not change in between.
- A configuration whose top level is not a JSON object is not modelled.
- `df.last(time)` (`plot.py:71`) is pandas parsing the token as a time offset, and selects data. It is not modelled. Neither is the data itself nor `ax.plot`.
- Drawing, `savefig`, `print` and `plt.clf` are not modelled. The model returns what would be passed to matplotlib: labels, title, style values, tickers, formatter, colour, rotation, minor label size and save path. Nor is matplotlib's validation of those values.
- Processes (`multiprocessing.Process`) are not modelled. The jobs are returned as a list in start order. Concurrent execution and process failures are not modelled.
- `str.format` of a save path is modelled for strings, integers, booleans and None. Other JSON values give `FormatNotModelled`.
- `int()` is modelled for ASCII digits. Python also accepts other Unicode decimal digits, which the model rejects. Python 3.11 and later raise `ValueError` for a text of more than 4300 digits (`plot.py:53`, `119`, `128`, `139`, `143`). The model reads any length.
- `Ticks.MinuteStep`: `k / m` raises `OverflowError` when `k` is too large for a float, beyond about 1.8e308. The model does not raise it and rounds the exact quotient. The quotient `k / m` is taken as exact. That is right for the `m = 8, 4, 2, 1` the loop reaches for nonzero `k`. It does not model float rounding of `k / m` for `|k|` beyond 2^53.
- `Ticks.PlanTicks`: the source parses the minute prefix in each iteration of the `while` loop and again at `plot.py:143`. The model parses it once. The first iteration always runs, so the first parse raises the same error.
- `Plotter.Plot.GetSqlQuery`: `UnboundLocalError` is modelled for the name read first: `max_t` when there are tokens, `sql_d` when there are none. The message text is not modelled.
