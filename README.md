# Contact-centre staffing simulator: the planning components

This project models the planning screens of the erlang-staffing-sim web
application in Dafny, and proves properties of that model. These are the
screens where a planner:

- sets the forecast horizon and the staffing parameters;
- types the forecast call volumes and average handle times (AHT) per day and
  half-hour interval;
- builds a roster of agents per interval and shift;
- reads the metrics computed from all of this.

The metric views covered are the linear-requirement metrics table, the
transposed Erlang metrics table, the daily summary and the live staffing
chart.

The model keeps the source's own data:

- The matrices are JavaScript arrays of arrays. In the model they are
  `Arr<T> = seq<Option<T>>`, where `None` is a hole or a missing entry.
- `Put` is index assignment, which grows the array with holes.
- `Cell` reads `m[r]?.[c]`.
- `parseInt(x) || 0` is `ParseIntOrZero`. It skips leading white space, takes
  a sign and a run of decimal digits, and returns 0 when there are no digits.
- `Math.round`, `Math.ceil`, `toFixed(1)` and `padStart` are written out in
  module `Js`.
- Numbers the source computes in floating point are Dafny `real`s, except
  the roster counts and shift lengths typed into the two roster views,
  which are integers.
- Calendar dates are whole day numbers.
- The Erlang library (`calculateSLA`, `erlangAgents`, `erlangUtilization`,
  `calculateEffectiveVolume`, and so on) is a record of function values,
  `Erlang.Library`. Statements that need a property of it name that property
  as a requirement, for example that the service level is a fraction.

The React handlers keep their structure:

- A handler that copies a matrix and writes one cell is a method. It is
  proved equal to a function, and that function states what changed and what
  did not.
- A loop over the 48 intervals or over the days of the horizon is a `while`
  loop with invariants. It is proved against a recursive specification
  function.
- The configuration screen's state, the staffing chart's state and the roster
  count input are classes whose methods update their fields.

## Model

| member | source | states |
|---|---|---|
| Js.Filled | src/components/AHTTable.tsx:46-48 | `Array(n).fill(v)` has n entries, all v |
| Js.Holes | src/components/RosterGrid.tsx:30 | an array of n holes has n entries, all missing |
| Js.Put | src/components/RosterGrid.tsx:30-31 | index assignment sets entry k, leaves every other entry as it was, and grows the array to k+1 when k is past the end |
| Js.PutPut | src/components/RosterGrid.tsx:29-31 | writing the same index twice keeps only the second value |
| Js.SetCell | src/components/RosterGrid.tsx:28-33 | the copy-create-row-write pattern: the target cell holds the value, every other row is unchanged, the other cells of the target row are those of the existing or freshly created row, and the length grows only when the row index is past the end |
| Js.SetCellTwice | src/components/RosterGrid.tsx:28-33 | two edits of the same cell leave the matrix of the second edit alone |
| Js.DigitChar | src/components/StaffingChart.tsx:43 | a digit below 10 is written as the digit character of that value |
| Js.NatToString | src/components/EnhancedRosterGrid.tsx:64 | a natural number is written as at least one decimal digit, and as exactly one digit when it is below 10 |
| Js.PadStart | src/components/AHTTable.tsx:78 | `padStart(width, c)` reaches the width when the string is shorter and ends with the original string |
| Js.TwoDigitsSpelled | src/components/AHTTable.tsx:78 | a number below 100 padded to two digits is its tens digit then its units digit |
| Js.TwoDigitsInjective | src/components/AHTTable.tsx:78 | different numbers below 100 pad to different two-digit strings |
| Js.TrimStart | src/components/RosterGrid.tsx:113 | `parseInt` skips leading white space: the result is a suffix of the text that is empty or starts with a non-space |
| Js.DigitRun | src/components/RosterGrid.tsx:113 | the digit run `parseInt` reads is all digits and stops at the first non-digit |
| Js.ParseTrimmed | src/components/EnhancedRosterGrid.tsx:74 | `parseInt` gives a number only when the text holds a digit |
| Js.ParseIntNeedsDigit | src/components/EnhancedRosterGrid.tsx:74 | text without a digit parses to NaN, which `\|\| 0` turns into 0 |
| Js.TrimStartOfNoSpace | src/components/EnhancedRosterGrid.tsx:74 | text that starts with a non-space is not trimmed |
| Js.DigitsValueOfNatToString | src/components/EnhancedRosterGrid.tsx:64 | reading back the decimal digits of n gives n |
| Js.DigitRunOfDigits | src/components/EnhancedRosterGrid.tsx:74 | in text made only of digits, the digit run is the whole text |
| Js.ParseIntOfDigits | src/components/EnhancedRosterGrid.tsx:74 | `parseInt` of a run of digits is their decimal value |
| Js.ParseIntOfNegativeDigits | src/components/EnhancedRosterGrid.tsx:74 | `parseInt` of a minus sign and digits is the negated value |
| Js.ParseIntOfIntToString | src/components/EnhancedRosterGrid.tsx:64 | `parseInt(n.toString())` is n for every integer n |
| Js.ParseIntOrZeroOfIntToString | src/components/EnhancedRosterGrid.tsx:64 | `parseInt(n.toString()) \|\| 0` is n |
| Js.ParseIntOrZeroOfEmpty | src/components/EnhancedRosterGrid.tsx:74 | a blank cell counts as 0 |
| Js.NatToStringInjective | src/components/AHTTable.tsx:76-78 | different natural numbers are written differently |
| Js.Round | src/components/DailySummaryTable.tsx:59 | `Math.round(x)` is the integer within half a unit of x, with halves rounded up |
| Js.Ceil | src/components/InputConfigurationScreen.tsx:75 | `Math.ceil(x)` is the least integer not below x |
| Js.Tenths | src/components/TransposedCalculatedMetricsTable.tsx:124-133 | `Math.round(x * 10) / 10` lies within 0.05 of x |
| Js.TenthsWithin | src/components/TransposedCalculatedMetricsTable.tsx:124-133 | rounding to tenths keeps a value between integer bounds it lies between |
| Js.RoundOfInt | src/components/StaffingChart.tsx:59 | rounding an integer gives it back |
| Js.TenthsAreWhole | src/components/TransposedCalculatedMetricsTable.tsx:124-133 | a value rounded to tenths is a whole number of tenths |
| Js.WholeTenthsOfInt | src/components/TransposedCalculatedMetricsTable.tsx:132 | an integer is a whole number of tenths |
| Js.Fixed1 | src/components/TransposedCalculatedMetricsTable.tsx:159 | a count of tenths is written with one digit after the point, with a minus sign exactly when it is negative |
| Js.Unsigned1 | src/components/TransposedCalculatedMetricsTable.tsx:159 | a non-negative count of tenths is written as digits, a point and one digit |
| Js.Unsigned1Injective | src/components/TransposedCalculatedMetricsTable.tsx:159 | different non-negative counts of tenths are written differently |
| Js.Fixed1Injective | src/components/TransposedCalculatedMetricsTable.tsx:159 | different counts of tenths are written differently |
| Js.ToFixed1Injective | src/components/TransposedCalculatedMetricsTable.tsx:156-163 | two values in whole tenths that `toFixed(1)` renders alike, with the same suffix, are equal |
| Js.RoundOfWholeTenths | src/components/TransposedCalculatedMetricsTable.tsx:124-133 | rounding an already rounded value to tenths changes nothing |
| Js.Decimal1 | src/components/CalculatedMetricsTable.tsx:119 | a number of whole tenths is written as the integer when the tenths digit is 0 and in the one-decimal form otherwise, beginning with a minus sign or a digit |
| Js.Decimal1Injective | src/components/CalculatedMetricsTable.tsx:119 | different numbers of tenths are written differently |
| Js.IntToStringInjective | src/components/CalculatedMetricsTable.tsx:119 | different integers are written differently |
| IntervalLabels.TwelveHour | src/components/CalculatedMetricsTable.tsx:37 | `hour % 12 \|\| 12` is a clock hour from 1 to 12 |
| IntervalLabels.TwelveHourOfDayHour | src/components/CalculatedMetricsTable.tsx:37 | midnight and noon show 12, morning hours show themselves, afternoon hours show the hour minus 12 |
| IntervalLabels.ClockSpelled | src/components/RosterGrid.tsx:14 | `hh:mm` is two hour digits, a colon and two minute digits |
| IntervalLabels.ClockInjective | src/components/RosterGrid.tsx:14 | different hours and minutes give different `hh:mm` captions |
| IntervalLabels.ClockIs | src/components/RosterGrid.tsx:14 | the caption of an hour and minute is the string spelled from their digits |
| IntervalLabels.StartTimeInRange | src/components/RosterGrid.tsx:12-13 | interval i starts at hour i/2, on the hour or the half hour, 30·i minutes after midnight |
| IntervalLabels.FirstStartLabel | src/components/RosterGrid.tsx:11-15 | the first interval starts at 00:00 |
| IntervalLabels.LastStartLabel | src/components/RosterGrid.tsx:11-15 | the last interval starts at 23:30 |
| IntervalLabels.StartLabelsDistinct | src/components/RosterGrid.tsx:11-15 | the 48 start captions are pairwise different |
| IntervalLabels.EndTimeInRange | src/components/StaffingChart.tsx:37-41 | interval i ends 30·i+30 minutes after midnight, wrapping to 00:00 for the last one |
| IntervalLabels.FirstEndLabel | src/components/TransposedCalculatedMetricsTable.tsx:52-56 | the first column is labelled 00:30 |
| IntervalLabels.LastEndLabel | src/components/TransposedCalculatedMetricsTable.tsx:52-56 | the last column is labelled 00:00 |
| IntervalLabels.EndLabelsDistinct | src/components/StaffingChart.tsx:37-47 | the 48 end captions are pairwise different |
| IntervalLabels.DisplaySplit | src/components/CalculatedMetricsTable.tsx:37 | the 12-hour caption is a `hh:mm` clock, a space and AM or PM |
| IntervalLabels.DisplayInjective | src/components/CalculatedMetricsTable.tsx:37 | different times of day get different 12-hour captions |
| IntervalLabels.StartDisplaysDistinct | src/components/CalculatedMetricsTable.tsx:35-37 | the 48 row captions of the metrics table are pairwise different |
| IntervalLabels.FirstStartClock | src/components/CalculatedMetricsTable.tsx:37 | midnight shows 12:00 on a 12-hour clock |
| IntervalLabels.LastStartClock | src/components/CalculatedMetricsTable.tsx:37 | the last interval shows 11:30 on a 12-hour clock |
| IntervalLabels.FirstStartDisplay | src/components/CalculatedMetricsTable.tsx:35-37 | the first row is captioned 12:00 AM |
| IntervalLabels.LastStartDisplay | src/components/CalculatedMetricsTable.tsx:35-37 | the last row is captioned 11:30 PM |
| TimeFormat.JsRem | src/components/AHTTable.tsx:77 | JavaScript's `%` agrees with the mathematical remainder on non-negative numbers and is non-positive on negative ones |
| TimeFormat.MinutesSecondsSpelled | src/components/AHTTable.tsx:75-79 | `m:ss` is the whole minutes, a colon and exactly two second digits, and minutes·60 + seconds gives the number back |
| TimeFormat.MinutesSecondsInjective | src/components/CalculatedMetricsTable.tsx:120-123 | different non-negative durations are rendered differently |
| Settings.ShrunkWithoutShrinkage | src/components/TransposedCalculatedMetricsTable.tsx:81-84 | with no shrinkage the rostered head count is the raw count |
| Settings.ShrunkFullShrinkage | src/components/TransposedCalculatedMetricsTable.tsx:81-84 | 100 % shrinkage in any category leaves no agents |
| Settings.RemainingIsFraction | src/components/TransposedCalculatedMetricsTable.tsx:82-84 | a percentage between 0 and 100 leaves a factor between 0 and 1 |
| Settings.ScaleDown | src/components/TransposedCalculatedMetricsTable.tsx:81-84 | a factor in [0, 1] keeps a non-negative count between 0 and itself |
| Settings.ShrunkBounds | src/components/TransposedCalculatedMetricsTable.tsx:81-84 | with percentages between 0 and 100, the shrunk head count lies between 0 and the raw count |
| Settings.ScaleDownThrice | src/components/TransposedCalculatedMetricsTable.tsx:81-84 | three such factors keep a non-negative count between 0 and itself |
| Settings.ShrunkMonotone | src/components/TransposedCalculatedMetricsTable.tsx:81-84 | more raw agents never give fewer shrunk agents |
| Aggregation.AggregateInterval | src/components/CalculatedMetricsTable.tsx:40-55 | the day loop computes the interval's total volume over the horizon, the AHT total and count of the days with calls, and their average, falling back to the planned AHT |
| Aggregation.TotalVolumeCountsValidDays | src/components/CalculatedMetricsTable.tsx:44-55 | the total volume is at least the number of days with calls, and positive exactly when some day has calls |
| Aggregation.CountedSumIsProduct | src/components/CalculatedMetricsTable.tsx:44-53 | adding a constant once per day with calls gives the constant times that number of days |
| Aggregation.TotalAhtBetween | src/components/CalculatedMetricsTable.tsx:44-53 | AHTs between two bounds add up to a total between the bounds counted once per day with calls |
| Aggregation.TotalAhtBounds | src/components/CalculatedMetricsTable.tsx:44-53 | the AHT total lies between the number of days with calls times each bound |
| Aggregation.AverageAhtBounds | src/components/CalculatedMetricsTable.tsx:55 | when the planned AHT and every day's AHT lie between two bounds, so does the average AHT |
| Aggregation.DivideBounds | src/components/CalculatedMetricsTable.tsx:55 | a total between lo·n and hi·n divided by n > 0 lies between lo and hi |
| Aggregation.AverageAhtWithoutVolume | src/components/CalculatedMetricsTable.tsx:55 | without calls in the interval the average AHT is the planned AHT |
| Aggregation.ColumnTotalUpdate | src/components/EnhancedRosterGrid.tsx:90-96 | replacing one row moves a shift total by the difference between the new and old cell |
| Aggregation.ColumnTotalAllBlank | src/components/EnhancedRosterGrid.tsx:90-96 | a column of blank cells totals 0 |
| Aggregation.CellsUpToIsRowSum | src/components/EnhancedRosterGrid.tsx:72-77 | summing a row's first w cells covers the whole row when it has at most w cells |
| Aggregation.CellsUpToPrefix | src/components/EnhancedRosterGrid.tsx:72-77 | cells past position w do not change the sum of the first w |
| Aggregation.ColumnTotalsSnoc | src/components/EnhancedRosterGrid.tsx:90-96 | appending a row adds its first w cells to the sum of the first w shift totals |
| Aggregation.GridTotalByColumns | src/components/EnhancedRosterGrid.tsx:70-96 | the grid total equals the sum of the shift totals when no row is wider than w |
| Aggregation.ColumnTotalsEmpty | src/components/EnhancedRosterGrid.tsx:91 | an empty grid's shift totals sum to 0 |
| Aggregation.RowTotalsPrefix | src/components/EnhancedRosterGrid.tsx:81-87 | rows past position n do not change the sum of the first n interval totals |
| Aggregation.GridTotalByRows | src/components/EnhancedRosterGrid.tsx:70-87 | the grid total equals the sum of the interval totals |
| Aggregation.EmptyGridTotals | src/components/EnhancedRosterGrid.tsx:71 | an empty grid has total 0 and every row and shift total is 0 |
| Aggregation.RowSumUpdate | src/components/EnhancedRosterGrid.tsx:81-87 | replacing one cell moves a row's sum by the difference between the new and old value |
| Aggregation.GridTotalUpdate | src/components/EnhancedRosterGrid.tsx:70-79 | replacing one row moves the grid total by the difference between the new and old row sums |
| Aggregation.RepeatedIsProduct | src/components/EnhancedRosterGrid.tsx:64 | adding x k times gives k·x |
| Aggregation.RowSumOfFilledRepeated | src/components/EnhancedRosterGrid.tsx:64 | a row of k equal cells sums to that cell's value k times |
| Aggregation.RowSumOfFilled | src/components/EnhancedRosterGrid.tsx:64 | a row of k equal cells sums to k times that cell's value |
| Aggregation.GridTotalOfFilledRepeated | src/components/EnhancedRosterGrid.tsx:64 | n equal rows total the row sum n times |
| Aggregation.GridTotalOfFilled | src/components/EnhancedRosterGrid.tsx:64 | n equal rows total n times the row sum |
| Aggregation.ColumnTotalOfFilledRepeated | src/components/EnhancedRosterGrid.tsx:64 | a column down n equal rows totals the cell's value n times |
| Aggregation.ColumnTotalOfFilled | src/components/EnhancedRosterGrid.tsx:64 | a column down n equal rows totals n times the cell's value |
| Aggregation.Where | src/components/CalculatedMetricsTable.tsx:95-108 | the indices below n that pass the emission test, each once and in increasing order |
| Aggregation.GatherFollowsWhere | src/components/CalculatedMetricsTable.tsx:95-108 | the rows pushed are exactly the rows of the emitted indices, in order |
| Aggregation.GatherStep | src/components/CalculatedMetricsTable.tsx:95-108 | one loop step pushes the row when the interval is emitted and nothing otherwise |
| AgentRoster.Intervals | src/components/RosterGrid.tsx:11-15 | 48 captions, the i-th the start time of interval i |
| AgentRoster.IntervalCaptions | src/components/RosterGrid.tsx:11-15 | the captions are pairwise different and each is on the hour or the half hour |
| AgentRoster.HeaderIsMorning | src/components/RosterGrid.tsx:83 | the header shows the first 24 captions, from 00:00 to 11:30 |
| AgentRoster.WithAgent | src/components/RosterGrid.tsx:17-21 | adding an agent keeps the old rows in place and appends one blank row of 48 cells |
| AgentRoster.AddAgent | src/components/RosterGrid.tsx:17-21 | `addAgent` hands on the grid with one more agent |
| AgentRoster.Without | src/components/RosterGrid.tsx:23-26 | the filter drops one row when the index is in range and none otherwise |
| AgentRoster.WithoutRemovesOne | src/components/RosterGrid.tsx:23-26 | removing agent k closes the gap, with the rows before k followed by the rows after k; an index out of range keeps the grid |
| AgentRoster.RemoveUndoesAdd | src/components/RosterGrid.tsx:17-26 | removing the agent just added gives the original grid back |
| AgentRoster.RemovalShifts | src/components/RosterGrid.tsx:23-26 | after removal every later agent moves up one place and earlier agents stay |
| AgentRoster.UpdateCell | src/components/RosterGrid.tsx:28-33 | only the edited cell changes; a missing agent row is created with 48 blanks; the grid grows only when the agent index is past the end |
| AgentRoster.LastEditWins | src/components/RosterGrid.tsx:28-33 | typing into the same cell twice keeps only the second text |
| AgentRoster.ShownAfterEdit | src/components/RosterGrid.tsx:113 | after an edit the cell shows the typed text and every other agent's cells show what they did before |
| ForecastVolume.ClearedVolumes | src/components/ForecastVolumeTable.tsx:85-87 | clearing gives weeks·7 days of 48 zero volumes |
| ForecastVolume.ClearedVolumesCarryNoTraffic | src/components/ForecastVolumeTable.tsx:85-87 | after clearing every interval's total volume is 0 and its average AHT falls back to the planned AHT, whatever the AHT table holds |
| ForecastVolume.StoredVolumeOfTyped | src/components/ForecastVolumeTable.tsx:66 | typing an integer stores it, and clearing the input stores 0 |
| ForecastVolume.UpdateVolumeValue | src/components/ForecastVolumeTable.tsx:61-68 | only cell (day, interval) changes and holds the parsed number; a missing day is created as 48 zeros |
| ForecastVolume.ShownAfterEdit | src/components/ForecastVolumeTable.tsx:140 | the input shows what the metrics read: the stored number after an edit, the old values on other days, and zeros in a day the edit created |
| ForecastVolume.LastEditWins | src/components/ForecastVolumeTable.tsx:61-68 | typing into the same cell twice keeps only the second number |
| ForecastVolume.SampleVolume | src/components/ForecastVolumeTable.tsx:70-83 | a sample draw gives 30–79 calls from 09:00 to 17:59, 10–29 from 06:00 to 08:59 and 18:00 to 22:59, and 0–4 at night |
| AhtTable.DefaultMatrix | src/components/AHTTable.tsx:71-73 | clearing gives weeks·7 days of 48 default AHTs of 1560 s |
| AhtTable.Initialised | src/components/AHTTable.tsx:45-50 | an empty matrix is replaced by the default one, and any other is left alone |
| AhtTable.DefaultMatrixAverage | src/components/AHTTable.tsx:45-50 | with the default matrix and planned AHT, every interval's average AHT is 1560 s whatever the volumes |
| AhtTable.StoredAht | src/components/AHTTable.tsx:57 | the stored AHT is never 0 |
| AhtTable.StoredAhtOfTyped | src/components/AHTTable.tsx:57 | typing a non-zero integer stores it; typing 0 or clearing the input stores 1560 |
| AhtTable.UpdateAhtValue | src/components/AHTTable.tsx:52-59 | only cell (day, interval) changes; a missing day is created as 48 default AHTs |
| AhtTable.LastEditWins | src/components/AHTTable.tsx:52-59 | typing into the same cell twice keeps only the second number |
| AhtTable.ShownAht | src/components/AHTTable.tsx:128 | a cell never shows 0 |
| AhtTable.ShownIsWhatMetricsRead | src/components/AHTTable.tsx:128 | with the default planned AHT the table shows the AHT the metrics use, and after an edit it shows the stored number |
| AhtTable.AhtCaptionSpelled | src/components/AHTTable.tsx:75-79 | the caption is minutes, a colon and two second digits, and different AHTs get different captions |
| AhtTable.DefaultCaption | src/components/AHTTable.tsx:75-79 | the default AHT is captioned 26:00 |
| AhtTable.SampleAht | src/components/AHTTable.tsx:61-69 | a sample draw gives an AHT from 1440 to 1679 seconds |
| InputConfiguration.WeeksForSpan | src/components/InputConfigurationScreen.tsx:75-84 | a range of at most 28 days selects 4 weeks, 29 to 56 days selects 8, and longer ranges select 12 |
| InputConfiguration.WeeksForSpanMonotone | src/components/InputConfigurationScreen.tsx:75-84 | a longer range never selects a shorter horizon |
| InputConfiguration.WeeksForSpanCovers | src/components/InputConfigurationScreen.tsx:75-84 | up to 84 days, the horizon covers the range and is the shortest that does |
| InputConfiguration.WeeksForRangeSymmetric | src/components/InputConfigurationScreen.tsx:73-84 | only the distance between the dates matters: swapping or shifting them selects the same horizon |
| InputConfiguration.HorizonRoundTrip | src/components/InputConfigurationScreen.tsx:58-84 | a button-chosen horizon spans exactly weeks·7 days, and reading that range back selects the same horizon |
| InputConfiguration.DefaultRangeIsFourWeeks | src/components/InputConfigurationScreen.tsx:21-23 | the default dates are the four-week horizon from the first date |
| InputConfiguration.Screen.constructor | src/components/InputConfigurationScreen.tsx:21-32 | the initial state: four weeks, the default dates and parameters, and empty tables |
| InputConfiguration.Screen.Parameters | src/components/InputConfigurationScreen.tsx:34-50 | the parameters handed to the simulation carry the screen's horizon and planned AHT |
| InputConfiguration.Screen.HandleClear | src/components/InputConfigurationScreen.tsx:52-56 | Clear empties the three tables and leaves the parameters and dates unchanged |
| InputConfiguration.Screen.CalculateDateRange | src/components/InputConfigurationScreen.tsx:58-64 | a horizon button keeps the first date, moves the last to the end of the horizon, and leaves the tables and the six numeric parameters unchanged; the range it sets maps back to the chosen horizon |
| InputConfiguration.Screen.HandleDateRangeChange | src/components/InputConfigurationScreen.tsx:66-84 | new dates are stored and the horizon becomes the one their distance selects; the tables and the six numeric parameters are unchanged |
| EnhancedRoster.Uniform | src/components/EnhancedRosterGrid.tsx:64 | 48 rows of 17 equal cells |
| EnhancedRoster.Normalization | src/components/EnhancedRosterGrid.tsx:39-42 | a grid that is not 48 rows with a 17-cell first row is replaced by a blank one, and a well-shaped grid is left alone |
| EnhancedRoster.NormalizationSettles | src/components/EnhancedRosterGrid.tsx:39-42 | after the replacement the grid is well shaped, so the render-time reset happens at most once |
| EnhancedRoster.EditedRoster | src/components/EnhancedRosterGrid.tsx:44-55 | an edit of a grid that is not 48 rows first resets it to blanks; then only the edited cell changes, and a missing row is created with 17 blanks |
| EnhancedRoster.UpdateRosterValue | src/components/EnhancedRosterGrid.tsx:44-55 | `updateRosterValue` hands on that edited grid |
| EnhancedRoster.TotalRoster | src/components/EnhancedRosterGrid.tsx:70-79 | the grand total is the sum of all cells, with blanks and non-numbers as 0 |
| EnhancedRoster.IntervalTotal | src/components/EnhancedRosterGrid.tsx:81-88 | an interval total is the sum of its row, and 0 for a missing row |
| EnhancedRoster.ShiftTotal | src/components/EnhancedRosterGrid.tsx:90-96 | a shift total is the sum down its column |
| EnhancedRoster.TotalsAgree | src/components/EnhancedRosterGrid.tsx:70-96 | the grand total equals the sum of the interval totals and the sum of the shift totals |
| EnhancedRoster.EmptyRosterTotals | src/components/EnhancedRosterGrid.tsx:71-91 | an empty grid has all totals 0 |
| EnhancedRoster.EditMovesTotals | src/components/EnhancedRosterGrid.tsx:44-96 | an edit moves the grand total, its interval total and its shift total by the change in the cell, and leaves every other interval and shift total alone |
| EnhancedRoster.ClearRoster | src/components/EnhancedRosterGrid.tsx:57-59 | Clear gives a well-shaped grid of blanks |
| EnhancedRoster.RosterCountInput.constructor | src/components/EnhancedRosterGrid.tsx:23 | the count input starts at 0 |
| EnhancedRoster.RosterCountInput.HandleRosterCountChange | src/components/EnhancedRosterGrid.tsx:61-68 | the count is recorded; a positive count hands on 48×17 cells of that count, and any other hands on nothing |
| EnhancedRoster.UniformTotals | src/components/EnhancedRosterGrid.tsx:61-96 | a uniform grid is well shaped and has interval totals 17·v, shift totals 48·v and grand total 816·v |
| EnhancedRoster.FillTotals | src/components/EnhancedRosterGrid.tsx:57-96 | filling with n gives a total of 816·n, and Clear gives 0 |
| EnhancedRoster.Intervals | src/components/EnhancedRosterGrid.tsx:26-33 | 48 rows, each with its start time in 24-hour and 12-hour form |
| EnhancedRoster.IntervalCaptions | src/components/EnhancedRosterGrid.tsx:26-33 | the row captions are pairwise different and the first is 00:00 / 12:00 AM |
| EnhancedRoster.Shifts | src/components/EnhancedRosterGrid.tsx:36 | 17 column captions, Shift 1 to Shift 17 |
| EnhancedRoster.ShiftCaptionsDistinct | src/components/EnhancedRosterGrid.tsx:36 | the shift captions are pairwise different |
| DailySummary.Required | src/components/DailySummaryTable.tsx:33-35 | the required agents are at least 1 and cover the workload at half an hour each, and they are the fewest that do |
| DailySummary.IntervalSla | src/components/DailySummaryTable.tsx:39-41 | an interval's SLA lies between 60 and 95, and is 80 when staffing meets the requirement exactly |
| DailySummary.IntervalSlaMonotone | src/components/DailySummaryTable.tsx:39-41 | more agents never give a lower SLA |
| DailySummary.IntervalOccupancy | src/components/DailySummaryTable.tsx:43-45 | no agents means 0 occupancy; occupancy never exceeds 95 and is non-negative for non-negative work |
| DailySummary.FirstRowStaffing | src/components/DailySummaryTable.tsx:27 | one head count per interval, read from the roster's first row |
| DailySummary.StaffingUpToAt | src/components/DailySummaryTable.tsx:27 | the j-th head count is the first row's cell j parsed, with 0 when it is missing or unparseable |
| DailySummary.ReadActual | src/components/DailySummaryTable.tsx:27 | the actual agents of an interval are the first row's parsed cell |
| DailySummary.IntervalFigures | src/components/DailySummaryTable.tsx:26-45 | one interval's volume, actual agents, SLA and occupancy |
| DailySummary.DayTotals | src/components/DailySummaryTable.tsx:18-50 | the loop over the 48 intervals sums the volume, the agents, the SLAs and the occupancies |
| DailySummary.SummarizeDay | src/components/DailySummaryTable.tsx:13-61 | a day's row: the total volume, the mean SLA and occupancy over 48 intervals, and the rounded mean staffing |
| DailySummary.SummarizeDays | src/components/DailySummaryTable.tsx:12-13 | one row for each of the weeks·7 days of the horizon |
| DailySummary.SlaSumBounds | src/components/DailySummaryTable.tsx:39-48 | k intervals' SLAs add up to between 60·k and 95·k |
| DailySummary.OccupancySumAtMost | src/components/DailySummaryTable.tsx:43-48 | k intervals' occupancies add up to at most 95·k |
| DailySummary.OccupancySumNonNegative | src/components/DailySummaryTable.tsx:43-48 | with non-negative volumes and AHT the occupancies add up to a non-negative number |
| DailySummary.RowBounds | src/components/DailySummaryTable.tsx:51-60 | a day's mean SLA is between 60 and 95 and its occupancy at most 95, and non-negative for non-negative volumes |
| DailySummary.StaffingSameEveryDay | src/components/DailySummaryTable.tsx:27 | the staffing column is the same on every day, because it reads the same roster row |
| DailySummary.ActualSumBounds | src/components/DailySummaryTable.tsx:30 | head counts between two bounds add up to between k times each bound |
| DailySummary.StaffingBetween | src/components/DailySummaryTable.tsx:59 | the mean staffing lies between bounds on every interval's head count |
| DailySummary.UniformStaffing | src/components/DailySummaryTable.tsx:59 | a first row holding n in every interval gives a mean staffing of n |
| DailySummary.VolumeSumOfEmptyDay | src/components/DailySummaryTable.tsx:26-41 | a day without calls has total volume 0 and each interval's requirement is the minimum of one agent |
| CalculatedMetrics.Clamp | src/components/CalculatedMetricsTable.tsx:79-86 | the value is limited to [0, 100], and a value already in that range is kept |
| CalculatedMetrics.ServiceLevel | src/components/CalculatedMetricsTable.tsx:79-82 | the service level is a percentage, and NaN exactly when there is neither a requirement nor an agent |
| CalculatedMetrics.Occupancy | src/components/CalculatedMetricsTable.tsx:85-86 | occupancy is at most 100, and 0 without rostered agents |
| CalculatedMetrics.StaffHoursAndRequirement | src/components/CalculatedMetricsTable.tsx:64-86 | the requirement is staff hours over agent work hours, and occupancy is staff hours over agents' hours capped at 100 |
| CalculatedMetrics.QuotientOfQuotient | src/components/CalculatedMetricsTable.tsx:85-86 | dividing twice is dividing by the product |
| CalculatedMetrics.TotalAgents | src/components/CalculatedMetricsTable.tsx:92 | the total is the first row's sum, or 1 when that is 0, so the ratio never divides by zero |
| CalculatedMetrics.CalculateMetrics | src/components/CalculatedMetricsTable.tsx:29-112 | the loop over the 48 intervals pushes the row of each emitted interval in order |
| CalculatedMetrics.PushInterval | src/components/CalculatedMetricsTable.tsx:95-108 | one loop step extends the rows of the first i intervals to the rows of the first i+1 |
| CalculatedMetrics.IntervalRow | src/components/CalculatedMetricsTable.tsx:34-95 | one interval's emission test and row |
| CalculatedMetrics.IntervalFormulas | src/components/CalculatedMetricsTable.tsx:64-108 | one interval's formulas, from the totals to the rounded row |
| CalculatedMetrics.RowOfAndFilter | src/components/CalculatedMetricsTable.tsx:95-108 | the loop's row and test are those of the interval |
| CalculatedMetrics.MetricRowsFollowEmission | src/components/CalculatedMetricsTable.tsx:34-110 | the k-th row pushed is the row of the k-th emitted interval |
| CalculatedMetrics.MetricRowsEmission | src/components/CalculatedMetricsTable.tsx:34-110 | the table has one row per interval with volume or rostered agents, in interval order, each captioned with its start time on a 12-hour clock, and every such interval appears |
| CalculatedMetrics.ServiceLevelIsPercent | src/components/CalculatedMetricsTable.tsx:79-82 | a row's service level is a percentage, or NaN exactly when there is neither a requirement nor an agent |
| CalculatedMetrics.OccupancyAtMostFull | src/components/CalculatedMetricsTable.tsx:85-86 | a row's occupancy is at most 100, and 0 without rostered agents |
| CalculatedMetrics.ActualAndInflux | src/components/CalculatedMetricsTable.tsx:61-89 | the actual column is the interval's total volume over the horizon, the influx is twice that, and the call trend is 100 |
| CalculatedMetrics.CellAtMostRowSum | src/components/CalculatedMetricsTable.tsx:58-93 | in a row of non-negative cells, each cell is at most the row's sum |
| CalculatedMetrics.RosteredWithinTotal | src/components/CalculatedMetricsTable.tsx:58-93 | with non-negative first-row cells, an interval's rostered agents lie between 0 and the total agents |
| CalculatedMetrics.RatioIsPercent | src/components/CalculatedMetricsTable.tsx:93 | the distribution ratio is a percentage when the rostered agents are within the total |
| CalculatedMetrics.ShareIsPercent | src/components/CalculatedMetricsTable.tsx:93 | a part of a whole, as a percentage rounded to tenths, lies in [0, 100] |
| CalculatedMetrics.AhtWithinBounds | src/components/CalculatedMetricsTable.tsx:55-100 | a row's rounded AHT lies between integer bounds on the planned AHT and every day's AHT |
| CalculatedMetrics.NumberText | src/components/CalculatedMetricsTable.tsx:119 | a number that is not a number reads "NaN"; whole tenths read as their JavaScript text, which determines the tenths count |
| CalculatedMetrics.FormatValue | src/components/CalculatedMetricsTable.tsx:116-127 | a percentage is the number's text followed by %, a time is `m:ss` of the whole seconds, and anything else is the number's text |
| CalculatedMetrics.PercentageOfInteger | src/components/CalculatedMetricsTable.tsx:118-119 | a whole percentage such as the call trend reads as the integer and % |
| CalculatedMetrics.PercentageOfNaN | src/components/CalculatedMetricsTable.tsx:118-119 | a service level that is not a number reads "NaN%" |
| CalculatedMetrics.PercentageOfTenths | src/components/CalculatedMetricsTable.tsx:118-119 | a percentage with a tenths digit keeps it: 80.5 reads "80.5%" |
| CalculatedMetrics.PercentageTextInjective | src/components/CalculatedMetricsTable.tsx:118-119 | two percentage cells read alike only for the same number, or both for NaN |
| CalculatedMetrics.PercentageCells | src/components/CalculatedMetricsTable.tsx:179-184 | a row has four percentage cells: call trend, service level, occupancy and agent ratio |
| CalculatedMetrics.RowFromRenderable | src/components/CalculatedMetricsTable.tsx:103-106 | the service level, occupancy and agent ratio of every row are whole tenths, or NaN |
| CalculatedMetrics.PercentageCellsInjective | src/components/CalculatedMetricsTable.tsx:179-184 | rows whose percentage cells read alike have the same service level, occupancy and agent ratio |
| CalculatedMetrics.VarianceColorAndIcon | src/components/CalculatedMetricsTable.tsx:129-139 | green exactly when the icon points up, red only when it points down, yellow exactly between −2 and 0, no icon exactly at 0, and the colour never gets worse as the variance grows |
| TransposedMetrics.TotalAgents | src/components/TransposedCalculatedMetricsTable.tsx:45-48 | the total is the sum of the whole grid, or 1 when that is 0 |
| TransposedMetrics.RowSumNonNegative | src/components/TransposedCalculatedMetricsTable.tsx:46 | non-negative cells give a non-negative row sum |
| TransposedMetrics.RowTotalAtMostGridTotal | src/components/TransposedCalculatedMetricsTable.tsx:45-48 | with non-negative cells, each interval's raw roster is between 0 and the grid total |
| TransposedMetrics.RowWithinTotalAgents | src/components/TransposedCalculatedMetricsTable.tsx:45-78 | with non-negative cells, each interval's raw roster is between 0 and the total agents |
| TransposedMetrics.TotalAgentsByRows | src/components/TransposedCalculatedMetricsTable.tsx:45-48 | the total agents is the sum of the interval totals, or 1 when that is 0 |
| TransposedMetrics.ServiceLevel | src/components/TransposedCalculatedMetricsTable.tsx:109-110 | the service level is 0 without rostered agents, and a percentage when the library's SLA is a fraction |
| TransposedMetrics.Occupancy | src/components/TransposedCalculatedMetricsTable.tsx:113-114 | occupancy is 0 without rostered agents, and a percentage when the library's utilisation is a fraction |
| TransposedMetrics.RowOfAndFilter | src/components/TransposedCalculatedMetricsTable.tsx:122-135 | the loop's row and test are those of the interval |
| TransposedMetrics.CalculateMetrics | src/components/TransposedCalculatedMetricsTable.tsx:40-139 | the loop over the 48 intervals pushes the row of each emitted interval in order |
| TransposedMetrics.PushInterval | src/components/TransposedCalculatedMetricsTable.tsx:122-135 | one loop step extends the rows of the first i intervals to the rows of the first i+1 |
| TransposedMetrics.IntervalRow | src/components/TransposedCalculatedMetricsTable.tsx:50-122 | one interval's emission test and row |
| TransposedMetrics.EndTimeDisplay | src/components/TransposedCalculatedMetricsTable.tsx:52-56 | a column's caption is the end time of its interval |
| TransposedMetrics.ShrunkRoster | src/components/TransposedCalculatedMetricsTable.tsx:77-84 | the rostered agents are the raw roster after the three shrinkages |
| TransposedMetrics.IntervalFormulas | src/components/TransposedCalculatedMetricsTable.tsx:89-134 | one interval's formulas, from the totals to the rounded row |
| TransposedMetrics.MetricRowsFollowEmission | src/components/TransposedCalculatedMetricsTable.tsx:50-136 | the k-th column is the row of the k-th emitted interval |
| TransposedMetrics.MetricRowsEmission | src/components/TransposedCalculatedMetricsTable.tsx:50-136 | one column per interval with volume or shrunk rostered agents, in interval order, captioned with its end time, and every such interval appears |
| TransposedMetrics.PositiveScaling | src/components/TransposedCalculatedMetricsTable.tsx:81-84 | scaling by positive factors keeps exactly the positive values positive |
| TransposedMetrics.EmittedByRawRoster | src/components/TransposedCalculatedMetricsTable.tsx:77-122 | below 100 % shrinkage an interval is shown exactly when it has volume or a raw roster; at 100 % in any category, exactly when it has volume |
| TransposedMetrics.ActualWithinRoster | src/components/TransposedCalculatedMetricsTable.tsx:81-125 | the actual-agents figure lies between 0 and the raw roster, and equals it without shrinkage |
| TransposedMetrics.RequirementWithoutVolume | src/components/TransposedCalculatedMetricsTable.tsx:99-101 | without effective volume the requirement is 0 |
| TransposedMetrics.NoAgentsNoService | src/components/TransposedCalculatedMetricsTable.tsx:109-115 | without rostered agents the service level and occupancy are 0 |
| TransposedMetrics.ServiceAndOccupancyArePercent | src/components/TransposedCalculatedMetricsTable.tsx:109-131 | with a library reporting fractions, the rounded service level and occupancy are percentages |
| TransposedMetrics.TenthsPositive | src/components/TransposedCalculatedMetricsTable.tsx:167 | a value rounded to tenths is positive exactly when the value is at least 0.05 |
| TransposedMetrics.TenthsBelowMinusTwo | src/components/TransposedCalculatedMetricsTable.tsx:168 | a value rounded to tenths is below −2 exactly when the value is below −2.05 |
| TransposedMetrics.VarianceColor | src/components/TransposedCalculatedMetricsTable.tsx:165-172 | only the variance row is coloured: green exactly above 0, red exactly below −2, yellow otherwise |
| TransposedMetrics.FieldsAreWholeTenths | src/components/TransposedCalculatedMetricsTable.tsx:124-133 | every figure in a column is a whole number of tenths |
| TransposedMetrics.CellTextDeterminesValue | src/components/TransposedCalculatedMetricsTable.tsx:156-163 | two figures shown with the same text are equal |
| TransposedMetrics.KeyNameOfVariance | src/components/TransposedCalculatedMetricsTable.tsx:144-154 | only the variance row has the key `variance` |
| TransposedMetrics.TransposedLayout | src/components/TransposedCalculatedMetricsTable.tsx:144-214 | nine rows in the listed order, each labelled and with one cell per interval column; only the variance row is coloured, green exactly when the variance is positive |
| TransposedMetrics.VarianceColourFromGap | src/components/TransposedCalculatedMetricsTable.tsx:103-168 | when the library's variance is rostered minus required, the colour is green exactly when the gap is at least 0.05, red exactly below −2.05, and yellow between |
| StaffingChart.ShiftLength | src/components/StaffingChart.tsx:150 | a column's shift length is never 0, because a missing or zero entry falls back to 17 |
| StaffingChart.InShiftByOffset | src/components/StaffingChart.tsx:150-153 | row r is in a column's shift exactly when some offset below the shift length wraps onto r |
| StaffingChart.OffsetHitsRow | src/components/StaffingChart.tsx:151 | the offset `(r − col) mod 48` wraps onto row r |
| StaffingChart.RowFixesOffset | src/components/StaffingChart.tsx:151 | any offset that wraps onto r is at least `(r − col) mod 48` |
| StaffingChart.FillColumn | src/components/StaffingChart.tsx:136-165 | the three loops of `updateRosterCount` hand on the filled grid |
| StaffingChart.InitializeRows | src/components/StaffingChart.tsx:139-141 | the first 48 rows exist afterwards, missing ones as blanks, and later rows are unchanged |
| StaffingChart.ClearColumn | src/components/StaffingChart.tsx:144-146 | column col is blank in the first 48 rows, and nothing else changes |
| StaffingChart.WriteShift | src/components/StaffingChart.tsx:149-153 | the value is written into the shift's rows of the column, wrapping past row 47 |
| StaffingChart.FillStep | src/components/StaffingChart.tsx:151-152 | one step of the fill loop writes the value into exactly its target row |
| StaffingChart.ShiftCovered | src/components/StaffingChart.tsx:150-153 | when the loop ends, every row of the shift has been written |
| StaffingChart.OffsetOfShiftRow | src/components/StaffingChart.tsx:151 | the row written at an offset below 48 gives that offset back |
| StaffingChart.FilledColumnCells | src/components/StaffingChart.tsx:136-165 | after the fill, the column holds the value in exactly the shift's rows and blanks elsewhere (all blanks for a non-positive value), and rows past 47 are unchanged |
| StaffingChart.FilledOtherCells | src/components/StaffingChart.tsx:139-165 | other columns are unchanged, except that missing rows appear as blanks |
| StaffingChart.FilledColumnTotal | src/components/StaffingChart.tsx:149-153 | on a grid of at most 48 rows, a positive value over a shift of k ≤ 48 rows adds up to k times the value down the column |
| StaffingChart.ColumnTotalGrows | src/components/StaffingChart.tsx:152 | writing the value into a blank cell adds it to the column total |
| StaffingChart.FilledGridBlank | src/components/StaffingChart.tsx:144-146 | an empty shift leaves the column totalling 0 |
| StaffingChart.FilledGridStep | src/components/StaffingChart.tsx:150-152 | lengthening the shift by one row changes the filled grid in that row alone |
| StaffingChart.FilledGridGrows | src/components/StaffingChart.tsx:151-152 | a shift one row longer writes the value into one more, previously blank row |
| StaffingChart.RosterCountsFrom | src/components/StaffingChart.tsx:50-64 | the effect reads one count per column: the column total over 17, rounded, when the row exists and the total is positive, else 0 |
| StaffingChart.RosterCountNonNegative | src/components/StaffingChart.tsx:55-60 | a count read back is never negative |
| StaffingChart.RosterCountRoundTrip | src/components/StaffingChart.tsx:50-64 | filling a column over the default 17-row shift and reading it back gives the entered count |
| StaffingChart.ShiftCountReapplied | src/components/StaffingChart.tsx:117-127 | re-applying a roster count over a new shift length k puts it into exactly k rows |
| StaffingChart.StaleShiftCountReapplied | src/components/StaffingChart.tsx:117-127 | as written, changing a 17-row shift to 10 rows still fills 17 |
| StaffingChart.Abs | src/components/StaffingChart.tsx:220 | the gap is the non-negative distance from zero |
| StaffingChart.IntervalMetricsOf | src/components/StaffingChart.tsx:168-223 | the gap is never negative, and without effective volume the requirement is 0 |
| StaffingChart.CalculateMetricsForInterval | src/components/StaffingChart.tsx:168-223 | one interval's chart metrics |
| StaffingChart.RoundBetween | src/components/StaffingChart.tsx:217 | rounding keeps a value between 0 and an integer bound |
| StaffingChart.ActualWithinRoster | src/components/StaffingChart.tsx:190-217 | the chart's actual agents lie between 0 and the interval's raw roster |
| StaffingChart.ChartData | src/components/StaffingChart.tsx:225-241 | one point per interval, captioned with its end time, carrying that interval's metrics, and coloured overstaffed exactly when actual exceeds required |
| StaffingChart.LiveIntervalOf | src/components/StaffingChart.tsx:74-108 | without rostered agents an interval contributes 0 service level and occupancy, and it is counted exactly when it has volume or rostered agents |
| StaffingChart.MeasureLiveInterval | src/components/StaffingChart.tsx:74-108 | one step of the live loop measures that interval |
| StaffingChart.LiveMetrics | src/components/StaffingChart.tsx:67-115 | the live loop's final service level and occupancy are the weighted means over the counted intervals |
| StaffingChart.AddWeighted | src/components/StaffingChart.tsx:97-106 | adding a weighted percentage keeps a weighted sum within 100 times its weights |
| StaffingChart.LiveSlaTotalsBounds | src/components/StaffingChart.tsx:74-108 | the volume-weighted SLA sum stays within 100 times the volume |
| StaffingChart.LiveOccupancyTotalsBounds | src/components/StaffingChart.tsx:74-108 | the staffing-weighted occupancy sum stays within 100 times the staffing |
| StaffingChart.LiveIntervalBounds | src/components/StaffingChart.tsx:74-108 | an interval's effective volume is non-negative, and its service level and occupancy are percentages |
| StaffingChart.LiveSlaIsPercent | src/components/StaffingChart.tsx:110-111 | the live service level is a percentage |
| StaffingChart.LiveOccupancyIsPercent | src/components/StaffingChart.tsx:110-111 | with non-negative roster cells the live occupancy is a percentage |
| StaffingChart.ChartState.constructor | src/components/StaffingChart.tsx:31-34 | shift lengths start at 17, roster counts at 0, and the live figures at 0 |
| StaffingChart.ChartState.SyncRosterCounts | src/components/StaffingChart.tsx:50-64 | the roster counts are re-read from the grid, and nothing else changes |
| StaffingChart.ChartState.UpdateLiveMetrics | src/components/StaffingChart.tsx:67-115 | the live figures are recomputed, and nothing else changes |
| StaffingChart.ChartState.UpdateRosterCount | src/components/StaffingChart.tsx:129-166 | the count is recorded, and the column is filled over its shift length |
| StaffingChart.ChartState.UpdateShiftCountAsWritten | src/components/StaffingChart.tsx:117-127 | the shift length is recorded, and a positive count is re-applied over the old shift length |
| StaffingChart.ChartState.UpdateShiftCount | src/components/StaffingChart.tsx:117-127 | the shift length is recorded, and a positive count is re-applied over the new shift length |

## Left out

- `src/lib/erlang` is not part of this model. Its functions are parameters
  (`Erlang.Library`). Statements that need one of its properties assume
  only that property: the service level and the utilisation are fractions,
  the effective volume of non-negative traffic is non-negative, or the
  variance is rostered minus required.
- Floating point: every `number` the source computes with is a Dafny
  `real`, except the roster counts and shift lengths below, which are
  `int`. The model has no rounding error, and no `Infinity` or `NaN`,
  except the one NaN of the metrics table's service level, modelled as
  `None`.
- `StaffingChart.ChartState.UpdateRosterCount`: the count is an integer.
  `Number(e.target.value)` can also deliver a fraction or `NaN`. A count
  of 2.5 is written into the cells as "2.5", and `parseInt` reads each
  cell back as 2. The model does not cover this, because it does not
  model `toString` of a fractional number.
- `StaffingChart.ChartState.UpdateShiftCountAsWritten`: the shift length
  is an integer. A fractional length such as 2.5 fills 3 rows in the
  source's loop (`rowOffset < shiftCount`), and `NaN` falls back to 17.
  Neither case is modelled.
- `StaffingChart.ChartState.UpdateShiftCount`: the same integer shift
  length as the as-written handler. Fractional and `NaN` lengths are not
  modelled.
- `EnhancedRoster.RosterCountInput.HandleRosterCountChange`: the count is
  an integer. A fractional count such as 2.5 fills all 816 cells with
  "2.5", which the totals read as 2 each, so the grand total is 1632 and
  not 2040. The model does not cover this, because it does not model
  `toString` of a fractional number.
- Dates are whole day numbers. `new Date`, `toISOString`, time zones and
  the date captions of the day columns are not modelled.
  `handleDateRangeChange` measures the distance between day numbers.
  This matches the millisecond difference divided by a day and rounded up
  when both dates are midnights in the same zone.
- `Math.random` is not modelled as a generator. `SampleVolume` and
  `SampleAht` state the range of one draw. The fills that call them are
  not modelled: `loadSampleData` in the forecast and AHT tables, the
  forecast table's initial sample fill, and `generateSampleRoster` in the
  roster grid.
- React plumbing is not modelled: rendering, `useState` batching, effects
  firing, and the `onXChange` callbacks. A handler returns the value it
  passes to its callback. Effects are methods the model does not schedule.
  Only `updateShiftCount` depends on render timing, and it is recorded
  under Findings.
- In-place row writes are not modelled. `updateCell`, `updateVolumeValue`,
  `updateAHTValue`, `updateRosterValue` and `updateRosterCount` copy the
  outer array but write into a row object that the parent's old grid still
  shares. The model builds new rows, so the old grid is unaffected.
- `AgentRoster.Without`: JavaScript's `filter` also skips holes in the
  array. The model keeps a hole as a row. The roster UI never creates
  holes, because `addAgent` appends.
- `CalculatedMetrics.WorkableConfig`: with out-of-office shrinkage plus
  billable break at exactly 100 %, the metrics table divides by zero.
  That configuration is excluded by a subset type.
- `CalculatedMetrics.FormatValue` is stated only for the numbers the
  table passes it. These are whole tenths or `NaN` for the percentage
  cells, and whole seconds for the AHT cell. The model does not cover
  JavaScript's text for other numbers: more decimal digits, the exponent
  form of very large or very small numbers, and `-0`.
- The metrics table computes `validDays` only for the average. The daily
  summary computes `totalRequired` but never uses it. Neither is a
  separate output of the model.
- `CalculatedMetrics.Requirement` and `CalculatedMetrics.Occupancy` are
  written with one division each. `StaffHoursAndRequirement` proves them
  equal to the source's chained divisions.
- The configuration screen's `Number(e.target.value)` setters are not
  modelled. The parameters are the numbers the inputs produce.
- `handleRunSimulation` is modelled as `Screen.Parameters`, which is the
  record of numeric parameters. The tables travel separately. The source
  leaves the AHT matrix out of that record.
- The roster grid's Clear button passes `[]` to the parent. That is the
  empty grid, and it needs no operation of its own.
- Rendering is not modelled. The model covers only the captions, shown
  values and colours that the properties above are about.
- `parseInt` is read as decimal. The hexadecimal `0x` prefix and the
  exponent forms that `parseInt` stops at are not modelled. Digits are ASCII
  only, and white space is a fixed set of common characters.

## Findings

| source | as written | input that shows it | evidently intended | confidence | as-written member | corrected member |
|---|---|---|---|---|---|---|
| src/components/StaffingChart.tsx:117-127 | `updateShiftCount` stores the new shift length, then re-applies the column's roster count by calling `updateRosterCount`. That handler belongs to the same render, so it reads `shiftCounts` from before the change. | A column with the initial 17-row shift and a roster count of 5, changed to a 10-row shift: the column is refilled over 17 rows (total 85), not 10 (total 50). | The re-applied count fills the new number of rows, as the comment on line 122 says. | high, not executed | StaffingChart.ChartState.UpdateShiftCountAsWritten, StaffingChart.StaleShiftCountReapplied | StaffingChart.ChartState.UpdateShiftCount, StaffingChart.ShiftCountReapplied |
