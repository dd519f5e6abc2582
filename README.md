# Sensor-log cleaning pipeline, modelled in Dafny

This project models the core of a pipeline that cleans particle-sensor
logs. The pipeline works in stages:

- **Load.** `cleanUp` reads one day of sensor files. First it repairs,
  in the file itself, the lines whose date was logged in UTC with a
  two-digit year (`fixUTCStamps`). Then it reads each file as a table. It
  drops rows whose timestamp does not parse: the known bad stamps first,
  then the recursive `autoFix`. It moves each sensor's clock back by that
  sensor's hour offset and keeps only the rows from the cut-off on.
- **Audit.** `checkDataRecordingPerformance` measures each sensor's
  recording health inside the day's window: the long gaps, the time lost
  at the start and at the end, and the total lost.
- **Resample.** `fillDf` lays each series onto a 10-second grid. A gap
  longer than the threshold is zero-padded. A shorter gap is interpolated
  linearly. A row that lands on the next grid point is passed on as it is.
- **Merge.** `mergeDataFrames` cuts every resampled table to the shortest
  one, puts the particle columns side by side and upsamples the result ten
  times.
- **Bookkeeping.** `main` keeps per-day records in the parameter file:
  the confirmed files and the processed flags, and whether the file is
  rewritten. `genNewYamlParams` adds an entry for every date found in the
  data file names that the file does not list yet.

Both drivers are modelled. The older one, `dataCleaning.py` at the top of
the repository, is in `LegacyDataCleaning`. It shares the merge, upsample
and interpolation code with the newer driver, which is modelled once in
`DataCleaning`.

How values are represented:

- Timestamps are whole seconds (`int`), and sensor readings are integers.
- A table is a sequence of `Sample(time, readings)` rows.
- A Python dict is an association list that keeps insertion order
  (`PyDict`).
- A file is its list of lines.
- Parsing a timestamp, formatting one and reading a CSV are function
  parameters.

Every loop the source runs is a `method` with loop invariants. Each method
is proved equal to a function, and the properties are lemmas about those
functions.

A source row at or after the last grid point runs the resampler's cursor
off the grid (project/fillDataFrame.py:54-57). That row is skipped by the
`IndexError`, and because the cursor then stands at the end of the grid,
the final zero padding adds nothing. `FillDataFrame.WorkedCase` proves the
result for rows at 0, 20 and 70 s on a 10 s grid from 0 to 70 with a 40 s
threshold: three rows, the 70 s row lost and no padding.
`FillDataFrame.FillCoverage` states in general when the grid is filled.

## Model

| member | source | states |
|---|---|---|
| FillDataFrame.Grid | project/fillDataFrame.py:27 | grid point k is start + k·freq; no point is after end, and the next point would be |
| FillDataFrame.GridIsAscending | project/fillDataFrame.py:27 | the grid is strictly increasing |
| FillDataFrame.GridDistance | project/fillDataFrame.py:27 | grid points j ≤ k are (k − j)·freq apart, which is the gap compared with the threshold |
| FillDataFrame.Advance | project/fillDataFrame.py:54-57 | the cursor stops at the first grid point after the row's time, or at the end of the grid; every point it passes is at or before the row's time |
| FillDataFrame.AdvanceRunsOff | project/fillDataFrame.py:54-57 | the cursor runs off the grid (the `IndexError` that skips the row) exactly when the row is at or after the last grid point |
| FillDataFrame.PadRows | project/fillDataFrame.py:73-79 | the zero rows for grid points lo up to hi, one per point, each at its grid point (properties in `PadBlock` and `StepPadsZeros`) |
| FillDataFrame.Lerp | project/fillDataFrame.py:93-100 | the readings of interpolation step `step` of `val`: the floor of prev + (cur − prev)·step/val, column by column (bounds in `LerpWithin`) |
| FillDataFrame.InterpRows | project/fillDataFrame.py:93-103 | the interpolated rows for grid points lo up to hi, row j being step j of hi − lo from prev towards cur (properties in `InterpBlock` and `StepInterpolatesBetween`) |
| FillDataFrame.Step | project/fillDataFrame.py:34-112 | one source row: advance the cursor, then skip, pad, interpolate or pass on (the four cases are stated as iffs by `StepRule`; the invariant it keeps by `StepKeepsInv`) |
| FillDataFrame.ScanTo | project/fillDataFrame.py:34-112 | the resampler's state after the first n source rows: `Step` folded over them; the loop invariant holds of it (`ScanToInv`) |
| FillDataFrame.StepKeepsInv | project/fillDataFrame.py:34-112 | one row keeps the loop invariant: output row j is at grid point j with the table's width, the output reaches the cursor unless the cursor ran off, and the three tallies add up to the output length; output and cursor never shrink |
| FillDataFrame.ScanToInv | project/fillDataFrame.py:34-112 | the loop invariant holds after any number of rows |
| FillDataFrame.ScanRow | project/fillDataFrame.py:35-112 | the loop body as written (cursor loop, skip, pad, interpolate or pass on) computes the step function |
| FillDataFrame.PadBlock | project/fillDataFrame.py:73-79 | appends one zero row per grid point from lo up to hi and counts each as padding |
| FillDataFrame.InterpBlock | project/fillDataFrame.py:93-103 | appends hi − lo interpolated rows at those grid points and counts each as interpolated |
| FillDataFrame.LerpWithin | project/fillDataFrame.py:93-103 | each interpolated reading lies between the previous and the current source reading; step 0 reproduces the previous row |
| FillDataFrame.StepRule | project/fillDataFrame.py:60-112 | a row pads exactly when the cursor moved and the gap exceeds the threshold; it interpolates exactly when the cursor moved by more than one within the threshold; it is passed on exactly when the cursor moved by one within the threshold; the output is unchanged exactly when the cursor did not move or ran off |
| FillDataFrame.StepExtends | project/fillDataFrame.py:34-112 | a row only appends to the output |
| FillDataFrame.StepPadsZeros | project/fillDataFrame.py:66-80 | every zero-padded reading is 0 |
| FillDataFrame.StepInterpolatesBetween | project/fillDataFrame.py:84-103 | an interpolated block starts with the previous row's readings and stays between the previous and the current readings |
| FillDataFrame.StepPassesRow | project/fillDataFrame.py:105-112 | a passed-on row appends exactly the row's readings at the cursor's grid point |
| FillDataFrame.Finish | project/fillDataFrame.py:114-125 | fails exactly when nothing was emitted (`overall[-1]` raises); otherwise the rows are non-empty and on the grid, and the tallies add up to the row count |
| FillDataFrame.TailKeepsOnGrid | project/fillDataFrame.py:114-125 | the final zero padding keeps every row on the grid |
| FillDataFrame.FinishScan | project/fillDataFrame.py:114-125 | the final padding loop as written computes `Finish` |
| FillDataFrame.Fill | project/fillDataFrame.py:5-139 | fails exactly when the scan emitted nothing; on success the rows are non-empty and on the grid, and the tallies add up to the row count |
| FillDataFrame.FillDf | project/fillDataFrame.py:5-139 | `fillDf` as written computes `Fill` |
| FillDataFrame.FillIsFinish | project/fillDataFrame.py:34-125 | the result is the row loop followed by the final padding, and the loop invariant holds between them |
| FillDataFrame.FillGapless | project/fillDataFrame.py:5-139 | output row j is at start + j·freq and not after end: the output has no holes |
| FillDataFrame.AllBeforeLastMeans | project/fillDataFrame.py:54-57 | "all rows are before the last grid point" stated recursively is the same as stated for each row |
| FillDataFrame.ReachesMeans | project/fillDataFrame.py:54-64 | "some row reaches the grid in time" stated recursively is the same as: some row is at or after the first grid point, and no row up to it is at or after the last |
| FillDataFrame.StepCount | project/fillDataFrame.py:54-57 | after a row, the cursor is inside the grid exactly when it was before and the row is before the last grid point; once it has run off, the output is shorter than the grid |
| FillDataFrame.StepNonEmpty | project/fillDataFrame.py:60-112 | the output becomes non-empty at the first row that reaches the grid while the cursor is still inside it |
| FillDataFrame.ScanReach | project/fillDataFrame.py:34-112 | after n rows, the cursor is inside the grid exactly when every row is before the last grid point, and the output is non-empty exactly when some row reached the grid in time |
| FillDataFrame.FillCoverage | project/fillDataFrame.py:114-139 | the resampler fails exactly when the grid is empty or no row reaches it in time; on success it covers the whole grid exactly when every row is before the last grid point |
| FillDataFrame.WorkedCase | project/fillDataFrame.py:5-139 | rows at 0 s, 20 s and 70 s (readings 5, 7, 9), a 10 s grid from 0 to 70 and a 40 s threshold give three rows: 5 passed on, then 5 and 6 interpolated; nothing is padded |
| CleanUpData.BadDateEnd | cleanUpData.py:122-141 | a match of the two-digit-year pattern starts the line with three spaces, two digits and `/`, and ends on a digit |
| CleanUpData.TimeSpanAt | cleanUpData.py:138 | a time-field match at p starts with the comma at p and ends inside the line |
| CleanUpData.SearchTimeSpan | cleanUpData.py:138 | the span found starts at or after the search start and is a match there |
| CleanUpData.SearchTimeSpanLeftmost | cleanUpData.py:138 | the search returns the leftmost match, and returns none only when no position matches |
| CleanUpData.RewriteLine | cleanUpData.py:141-149 | a line without the two-digit-year date is kept as it is; for a line with it, the stamp text (the date with its year expanded, then the time cut at the fourth line's span) either does not parse and the rewrite raises on that text, or parses to t and the line becomes `format(t − 7·3600)` followed by the line from the end of the time span on |
| CleanUpData.YearPrefixExpanded | cleanUpData.py:144-146 | for every line whose matched date starts with three spaces and then the run's two-digit year, the stamp handed to pandas starts with three spaces, `20` and that year |
| CleanUpData.RewriteMatching | cleanUpData.py:141-149 | for every such line, the stamp starts with the four-digit year, and the line is rewritten to the parsed stamp moved back 25200 s (7 h) and formatted, followed by the rest of the line, or raises on the stamp when it does not parse |
| CleanUpData.FormattedHasNoBadDate | cleanUpData.py:147 | text produced by the format `' %Y/%m/%d, …'` never matches the two-digit-year pattern |
| CleanUpData.RewriteLineOnce | cleanUpData.py:141-149 | a rewritten line no longer carries the bad date, so rewriting it again keeps it |
| CleanUpData.WriteAllMeans | cleanUpData.py:139-151 | the write loop writes a prefix of the lines: each written line is that line's rewrite; there is no error exactly when every line was written; the error is the failure of the first line not written |
| CleanUpData.WriteUpToStops | cleanUpData.py:139-151 | after k lines, the written count is at most k, equals k exactly when nothing was raised, and the raised error is the one at the first unwritten line |
| CleanUpData.WriteAll | cleanUpData.py:139-151 | the write loop over all the lines, each rewritten by `RewriteLine`, stopping at the first that raises (its meaning is stated by `WriteAllMeans`) |
| CleanUpData.FixLines | cleanUpData.py:115-152 | `fixUTCStamps` on a file's lines: too few lines raise `IndexError`, a fourth line without a time field raises, otherwise the write loop with the date's year and the fourth line's span (properties in `FixUTCStamps` and `FixTwice`) |
| CleanUpData.FixLine | cleanUpData.py:141-149 | the rewrite of one line as written computes `RewriteLine` |
| CleanUpData.WriteLines | cleanUpData.py:139-151 | the write loop as written computes `WriteAll` |
| CleanUpData.FixUTCStamps | cleanUpData.py:115-152 | `fixUTCStamps` as written computes `FixLines`: fewer than four lines raise `IndexError`, a fourth line with no time field raises, and otherwise the write loop runs |
| CleanUpData.FixTwice | cleanUpData.py:115-152 | after a successful repair, repairing the file again (with any date) changes no line |
| CleanUpData.RewriteAgain | cleanUpData.py:139-151 | lines written by the loop pass through a second write loop unchanged and without error |
| CleanUpData.KeepMembers | cleanUpData.py:68-69 | a row survives the bad-times drop exactly when its stamp is not a bad time |
| CleanUpData.KeepNone | cleanUpData.py:68-69 | with no bad times, nothing is dropped |
| CleanUpData.Keep | cleanUpData.py:68-69 | the rows whose stamp is none of the bad times, in order; never more rows than given (membership in `KeepMembers`) |
| CleanUpData.KeepMore | cleanUpData.py:68-69 | dropping the bad times one after another is the same as dropping them together |
| CleanUpData.DropBadTimes | cleanUpData.py:68-69 | the drop loop as written computes `Keep` |
| CleanUpData.KeepParseable | cleanUpData.py:155-176 | the rows kept are no more than the rows given, and every kept stamp parses |
| CleanUpData.KeepParseableMembers | cleanUpData.py:155-176 | a row survives `autoFix` exactly when its stamp parses |
| CleanUpData.FiltersKeepOrder | cleanUpData.py:155-176 | both filters act row by row and keep order: filtering a concatenation is concatenating the filtered parts |
| CleanUpData.KeepParseableAll | cleanUpData.py:72-76 | `autoFix` changes nothing exactly when every stamp parses |
| CleanUpData.DropUnparseable | cleanUpData.py:172 | dropping every row with a given unparseable stamp leaves the final parseable rows unchanged |
| CleanUpData.DropFirstBad | cleanUpData.py:164-175 | one recursion of `autoFix` (drop the first bad stamp everywhere) shortens the table, keeps the eventual result and keeps the parsed prefix |
| CleanUpData.AutoFix | cleanUpData.py:155-176 | the recursive drop-and-restart as written returns exactly the rows whose stamp parses, in order |
| CleanUpData.ToSamplesAt | cleanUpData.py:73 | converted row i has the parsed time of row i and its readings |
| CleanUpData.ParseTimes | cleanUpData.py:67-76 | the Date_Time conversion: all rows when every stamp parses, otherwise the bad times dropped and then `autoFix` (stated by `ParseTimesKeeps`) |
| CleanUpData.ParseTimesKeeps | cleanUpData.py:67-76 | the conversion keeps every row when all stamps parse; otherwise it drops the bad times and then keeps the parseable rows |
| CleanUpData.ConvertTimes | cleanUpData.py:67-76 | the conversion as written (drop loop, `to_datetime`, `autoFix`) computes `ParseTimes` |
| CleanUpData.ShiftAt | cleanUpData.py:84-87 | shifted row i is row i moved back by the offset in hours |
| CleanUpData.ShiftZero | cleanUpData.py:84-87 | a zero offset changes nothing |
| CleanUpData.Shift | cleanUpData.py:87 | moving every row back by the offset in hours keeps the row count (row by row in `ShiftAt`) |
| CleanUpData.AtOrAfterBound | cleanUpData.py:92 | every row kept is at or after the cut-off |
| CleanUpData.AtOrAfterMembers | cleanUpData.py:92 | the rows kept are exactly the rows at or after the cut-off |
| CleanUpData.AtOrAfter | cleanUpData.py:92 | the rows at or after the cut-off, in order (stated by `AtOrAfterBound` and `AtOrAfterMembers`) |
| CleanUpData.SensorNameAt | cleanUpData.py:54-56 | a name found after `Data\` starts with a letter and ends with a digit |
| CleanUpData.SensorNameLeftmost | cleanUpData.py:54-56 | the sensor name is the leftmost match in the path, and there is none only when no position matches |
| CleanUpData.SensorName | cleanUpData.py:54-56 | the sensor name, if any, is non-empty: the leftmost `Data\` followed by letters and digits, without the `Data\` |
| CleanUpData.LoadFile | cleanUpData.py:34-103 | the loading step as written computes `Load` |
| CleanUpData.Repair | cleanUpData.py:17-28 | a confirmed file is left alone; an unconfirmed file is repaired and recorded `True`, or recorded `False` and skipped when it has fewer than four lines; other exceptions escape (stated by `ShortFileSkipped` and `CleanUpKeeps`) |
| CleanUpData.Load | cleanUpData.py:34-103 | reads the file, names the sensor from its path, converts, shifts and cuts the table and stores it under the name; a path without a sensor name raises, and an empty table raises on its first stamp (stated by `LoadStores` and `TableRows`) |
| CleanUpData.CleanFile | cleanUpData.py:14-103 | one turn of the file loop: `Repair`, then `Load` unless the file was skipped |
| CleanUpData.CleanOneFile | cleanUpData.py:14-103 | one turn of the file loop as written computes the loop-step function |
| CleanUpData.CleanStep | cleanUpData.py:14-103 | the state after the next file is the fold one step further, and a failure is final |
| CleanUpData.FailureSticks | cleanUpData.py:14-103 | once a file raises, the loop's result stays that failure |
| CleanUpData.CleanUp | cleanUpData.py:8-112 | `cleanUp` as written computes `CleanFiles`: a fold over the files that stops at the first exception |
| CleanUpData.CleanFiles | cleanUpData.py:8-112 | `cleanUp` from the files on disk: `CleanFile` folded over the paths, ending at the first exception (properties in `CleanUpKeeps`) |
| CleanUpData.CleanUpKeeps | cleanUpData.py:8-112 | after a run that returns: `filesChecked` has an entry for exactly the files outside `confirmedFiles`; confirmed files are untouched on disk; no sensor or file is listed twice; every loaded row is at or after the cut-off |
| CleanUpData.ShortFileSkipped | cleanUpData.py:17-28 | a file with fewer than four lines is recorded as not checked, nothing is loaded from it, and the loop goes on |
| CleanUpData.LoadStores | cleanUpData.py:53-103 | after loading, the sensor's name maps to the converted, shifted and cut table of its file |
| CleanUpData.ConvertedRows | cleanUpData.py:73-87 | the converted, shifted rows are exactly the parseable rows, each at its parsed time minus the offset |
| CleanUpData.ShiftedRows | cleanUpData.py:67-87 | after conversion and the clock shift, the rows are exactly the parseable rows of the table (or of the table without bad times), moved back by the sensor's offset, or by nothing when it has none |
| CleanUpData.TableRows | cleanUpData.py:67-103 | the stored table is exactly those shifted rows that are at or after the cut-off |
| CleanUpData.YearOfDate | cleanUpData.py:144 | the year taken from the date `4-22-22` is `22` |
| CleanUpData.YearExpanded | cleanUpData.py:145 | `str.replace` expands every occurrence of the year: `   22/4/22` becomes `   2022/4/2022` |
| CleanUpData.YearReplacedEverywhere | cleanUpData.py:141-145 | on the line `   22/4/22,   11:58:8` with date `4-22-22`, the matched date ends at column 10 and its day field is expanded along with the year |
| PyText.LastField | cleanUpData.py:144 | `s.split(sep)[-1]` is the longest suffix without the separator, preceded by the separator unless it is all of `s` |
| PyText.ReplaceAbsent | cleanUpData.py:145 | replacing a pattern that does not occur changes nothing |
| PyText.ReplaceChar | project/genNewYamlParams.py:25 | replacing one character by another changes exactly the positions holding it |
| PyText.Replace | cleanUpData.py:145 | `str.replace`: non-overlapping occurrences from the left (stated by `ReplaceAbsent`, `ReplaceChar` and `YearPrefixExpanded`) |
| PyDict.PutGet | project/dataCleaning.py:91 | after `d[k] = v`, k maps to v and every other key keeps its value |
| PyDict.PutKeys | project/genNewYamlParams.py:31-32 | assigning an existing key keeps the key order; a new key goes at the end |
| PyDict.PutUnique | cleanUpData.py:103 | assignment never lists a key twice |
| PyDict.Put | project/dataCleaning.py:91 | `d[k] = v`: the dict grows by one exactly when k was not a key (lookup and order in `PutGet` and `PutKeys`) |
| DataCleaning.UpsampleLength | project/dataCleaning.py:257-268 | n merged rows upsample to 10(n − 1) + 1 rows |
| DataCleaning.Upsample | project/dataCleaning.py:257-268 | the ten-times upsampled table (length, rows and kept rows in `UpsampleLength`, `UpsampleAt`, `UpsampleKeepsRows`) |
| DataCleaning.UpsampleAt | project/dataCleaning.py:260-264 | upsampled row 10k + c is row k plus c tenths of the step to row k + 1 |
| DataCleaning.UpsampleKeepsRows | project/dataCleaning.py:257-268 | every merged row k appears at 10k, and the last merged row is last |
| DataCleaning.UpsampleOnce | project/dataCleaning.py:258-267 | one pass of the upsampling loop as written computes `Upsample` |
| DataCleaning.UpsampleFrame | project/dataCleaning.py:257-268 | the outer loop, which repeats the pass once per column, leaves `Upsample` |
| DataCleaning.MinOf | project/dataCleaning.py:247 | `min` is one of the lengths and no greater than any |
| DataCleaning.IndexOf | project/dataCleaning.py:248 | `index` is the first position holding the value |
| DataCleaning.Lengths | project/dataCleaning.py:244-246 | the length list has each table's row count in key order |
| DataCleaning.MergedColumns | project/dataCleaning.py:249-254 | the merged frame has the time column and one column per sensor, each as long as the shortest table |
| DataCleaning.Values | project/dataCleaning.py:258 | `.values` has one row per index entry and one cell per column |
| DataCleaning.MergeDataFrames | project/dataCleaning.py:242-269 | `mergeDataFrames` as written computes `Merged` |
| DataCleaning.Merged | project/dataCleaning.py:242-269 | `ValueError` when no sensor has a table; otherwise the merged columns cut to the shortest table, upsampled (stated by `MergedRows` and `MergedUpsampled`) |
| DataCleaning.MergedRows | project/dataCleaning.py:244-254 | the merged rows: as many as the shortest table; times from the first shortest table; cell c + 1 is sensor c's particle reading |
| DataCleaning.MergedUpsampled | project/dataCleaning.py:242-269 | with a non-empty shortest table, the result has 10(low − 1) + 1 rows and every tenth row is a merged row |
| DataCleaning.Labels | project/dataCleaning.py:157 | the window keeps rows strictly between start and end, in increasing label order |
| DataCleaning.LabelsEmpty | project/dataCleaning.py:157 | the window is empty exactly when no row lies strictly inside it |
| DataCleaning.WindowPrefix | project/dataCleaning.py:157 | for a sorted table that starts after the window start, the window is a prefix of the table |
| DataCleaning.LabelGaps | project/dataCleaning.py:159-171 | every gap the loop records exceeds the 20 s interval |
| DataCleaning.LabelGapsPositional | project/dataCleaning.py:159-171 | for a sorted table that starts after the window start, the label lookup records exactly the gaps between consecutive window rows |
| DataCleaning.LabelGapsNone | project/dataCleaning.py:159-171 | for a sorted table whose first row is at or before the window start, the label lookup records no gap at all |
| DataCleaning.CountGaps | project/dataCleaning.py:159-171 | the gap loop as written computes `counter` and `errorCount` from the recorded gaps |
| DataCleaning.Tally | project/dataCleaning.py:164-167 | one count update adds one to the gap length's count, or sets it to 1 when the length is new |
| DataCleaning.CountUpCounts | project/dataCleaning.py:164-167 | `errorCount` lists each gap length once, with the number of times it occurred |
| DataCleaning.CountUpSum | project/dataCleaning.py:179 | the sum of length × count over `errorCount` is the sum of the recorded gap lengths |
| DataCleaning.SumItems | project/dataCleaning.py:179 | the `timeDeltaDuring` sum as written computes the sum of length × count |
| DataCleaning.ReportOf | project/dataCleaning.py:172-180 | no report for an empty window; otherwise the row count, the gap tally, the start and end gaps, the time lost in gaps and their total |
| DataCleaning.Audit | project/dataCleaning.py:149-180 | one sensor's report from the window and the gaps the label lookup records (stated by `AuditReport`) |
| DataCleaning.AuditReport | project/dataCleaning.py:172-180 | a sensor has a report exactly when some row is inside the window; then the start and end gaps are positive, the time lost in gaps is the weighted sum of `errorCount`, and the total lost is the gaps plus start plus end |
| DataCleaning.AuditSensor | project/dataCleaning.py:149-211 | the audit of one sensor as written computes `Audit` |
| DataCleaning.CheckDataRecordingPerformance | project/dataCleaning.py:124-214 | the audit loop as written computes `AuditAll` |
| DataCleaning.AuditAll | project/dataCleaning.py:124-214 | every sensor's report in order; `UnboundLocalError` exactly when the first sensor has no row in the window, since the start and end gaps are then unbound (stated by `AuditFailsIff` and `CollectBound`) |
| DataCleaning.AuditStep | project/dataCleaning.py:149-211 | one sensor of the audit loop is the next step of `Collect` |
| DataCleaning.CollectBound | project/dataCleaning.py:172-211 | once the first sensor has rows in the window, every later sensor is reported, with or without rows |
| DataCleaning.AuditFailsIff | project/dataCleaning.py:207-208 | the audit raises (`timeDeltaEnd` unbound) exactly when the first sensor has no rows in the window |
| DataCleaning.PositionalGapsExact | project/dataCleaning.py:159-171 | with the intended lookup, a gap g is recorded exactly when two consecutive window rows are g > 20 s apart |
| DataCleaning.IntendedLostWithin | project/dataCleaning.py:172-180 | with the intended lookup, the time lost never exceeds the window length |
| DataCleaning.IntendedAudit | project/dataCleaning.py:159-180 | the audit with consecutive window rows compared by position (stated by `PositionalGapsExact` and `IntendedLostWithin`) |
| DataCleaning.LabelLookupMissesGap | project/dataCleaning.py:161 | rows at 5, 10 and 100 s with the window (5, 1000), the first row exactly at the window start as `cleanUp` keeps it: as written no gap is counted; the intended lookup counts the 90 s gap |
| DataCleaning.InterpolateMissingData | project/dataCleaning.py:217-239 | the interpolation loop as written computes `Interpolated` |
| DataCleaning.Interpolated | project/dataCleaning.py:217-239 | each sensor mapped to its `fillDf` rows on the 10 s grid with a 40 s threshold, skipping sensors where `fillDf` raises (stated by `InterpolatedGet` and `InterpolatedOnGrid`) |
| DataCleaning.InterpolateOne | project/dataCleaning.py:228-237 | one sensor of the loop stores its `fillDf` rows, or nothing when `fillDf` raises |
| DataCleaning.InterpolatedGet | project/dataCleaning.py:217-239 | a sensor maps to its resampled rows when `fillDf` returns, and is absent when `fillDf` raises or the sensor is not in the data |
| DataCleaning.InterpolatedOnGrid | project/dataCleaning.py:217-239 | every resampled table lies on the 10 s grid from the window start and does not pass the window end |
| DataCleaning.ConfirmedMembers | project/dataCleaning.py:68-72 | a file is added to the confirmed list exactly when it was checked `True` |
| DataCleaning.ConfirmedLength | project/dataCleaning.py:68-72 | no more files are added than were checked |
| DataCleaning.MergeConfirmed | project/dataCleaning.py:68-72 | the new list is the old confirmed files followed by the files checked `True`, in order |
| DataCleaning.ProcessParticle | project/dataCleaning.py:42-91 | the loop over the days for one particle as written computes `DayPass` |
| DataCleaning.DayPass | project/dataCleaning.py:42-91 | the day loop for one particle keeps the number of days, and stops with `None` when a day's stages raise (properties in `DayPassGrows` and `DayPassFlags`) |
| DataCleaning.ProcessDays | project/dataCleaning.py:40-96 | the bookkeeping of `main` as written computes `MainDays`: the new days, and a rewrite exactly when they differ from what was read |
| DataCleaning.MainDays | project/dataCleaning.py:40-96 | `DayPass` for each particle in turn, and a rewrite exactly when the days differ from what was read (stated by `PassesDone` and `SecondRunIdle`) |
| DataCleaning.ProcessedGrows | project/dataCleaning.py:68-91 | processing a day only appends confirmed files, keeps its pattern, sets the particle's flag and keeps the other flags |
| DataCleaning.DayPassGrows | project/dataCleaning.py:42-91 | a day loop only grows the entries, keeps keys and patterns, and leaves the days after the cursor untouched |
| DataCleaning.DayPassFlags | project/dataCleaning.py:42-91 | after the day loop, every day is marked processed for the particle |
| DataCleaning.PassesGrown | project/dataCleaning.py:40-91 | a run only grows the entries |
| DataCleaning.PassesDone | project/dataCleaning.py:40-91 | after a run, every day is marked processed for every particle |
| DataCleaning.DayPassIdle | project/dataCleaning.py:44-48 | when every day is marked for the particle and `processAll` is off, the day loop changes nothing |
| DataCleaning.SecondPassesIdle | project/dataCleaning.py:40-48 | when every day is marked for every particle, a run without `processAll` changes nothing |
| DataCleaning.SecondRunIdle | project/dataCleaning.py:40-96 | a second run without `processAll` processes nothing, and the file is not rewritten |
| LegacyDataCleaning.LegacyCollectMeans | dataCleaning.py:149-205 | the older audit loop gets through exactly when every sensor has a report, and lists them in order; otherwise it stops at the first sensor with an empty window |
| LegacyDataCleaning.LegacyAuditMeans | dataCleaning.py:149-205 | the older audit raises (`iloc[0]` on an empty window) exactly when some sensor has no row in the window; otherwise it reports every sensor in order |
| LegacyDataCleaning.CheckDataRecordingPerformance | dataCleaning.py:124-208 | the older audit loop as written computes `LegacyAuditAll` |
| LegacyDataCleaning.LegacyAuditAll | dataCleaning.py:124-208 | every sensor's report in order, or the `IndexError` of the first empty window (stated by `LegacyAuditMeans`) |
| LegacyDataCleaning.LegacyProcessDays | dataCleaning.py:24-97 | the older `main` bookkeeping as written computes `LegacyMain` |
| LegacyDataCleaning.LegacyPass | dataCleaning.py:43-91 | the older day loop keeps the number of days and stops with `None` when a day's stages raise (stated by `LegacyPassDone`) |
| LegacyDataCleaning.LegacyMain | dataCleaning.py:24-97 | the older bookkeeping: the day loop, with the rewrite flag that starts `True` (stated by `LegacyAlwaysRewrites`) |
| LegacyDataCleaning.LegacyPassDone | dataCleaning.py:43-91 | after a run, every day is processed, keeps its key, pattern and date, and its confirmed list only grew at the end |
| LegacyDataCleaning.LegacyAlwaysRewrites | dataCleaning.py:41-96 | as written, the parameter file is rewritten after every run that gets through |
| LegacyDataCleaning.LegacyIdleStillRewrites | dataCleaning.py:41-93 | when every day is already processed, the run changes nothing, yet the flag still calls for a rewrite |
| LegacyDataCleaning.RewriteNeededMeans | dataCleaning.py:93-96 | with the intended rule, a run over processed days does not rewrite the file, and a run that processes a new day does |
| GenNewYamlParams.GenSampleObj | project/genNewYamlParams.py:40-41 | the new entry is keyed by the date, has no confirmed files and no processed flags, and has the pattern `.., Data, *<date>.txt` |
| GenNewYamlParams.FirstFit | project/genNewYamlParams.py:24 | the group lengths chosen come from the lengths still to try and fit at the position |
| GenNewYamlParams.FirstFitFirst | project/genNewYamlParams.py:24 | nothing is chosen exactly when none of the lengths still to try fits; what is chosen is the first that fits, in the order a backtracking matcher tries them (greedy groups, two digits before one) |
| GenNewYamlParams.MatchAt | project/genNewYamlParams.py:24-25 | a match sits right after `-` or `_`: three groups of one or two digits, each pair split by one non-space character, inside the text |
| GenNewYamlParams.MatchAtNone | project/genNewYamlParams.py:24 | there is no match at a position exactly when it is not right after `-` or `_`, or no group lengths fit there |
| GenNewYamlParams.MatchAtComplete | project/genNewYamlParams.py:24 | a text right after `-` or `_` with three groups of one or two digits split by non-space characters always gives a match there |
| GenNewYamlParams.FoundDates | project/genNewYamlParams.py:24-25 | every string `findall` returns is date text that sits right after a `-` or `_` in the file list |
| GenNewYamlParams.FindAll | project/genNewYamlParams.py:24-25 | `re.findall`: the leftmost match from each position on, the search resuming after a match (soundness in `FoundDates`) |
| GenNewYamlParams.NoMarkNoDate | project/genNewYamlParams.py:24-25 | a file list without `-` or `_` yields no date |
| GenNewYamlParams.OneFileName | project/genNewYamlParams.py:24-25 | the file list `x_12_3_45` yields exactly `12_3_45` |
| GenNewYamlParams.DatesAreDashed | project/genNewYamlParams.py:25 | every date in `datesInData` is date text with `-` in place of every `_` |
| GenNewYamlParams.DatesInData | project/genNewYamlParams.py:25 | the set of matches with `_` turned into `-` (stated by `DatesAreDashed`) |
| GenNewYamlParams.Missing | project/genNewYamlParams.py:27 | a date is missing exactly when it was found and the parameter file does not list it |
| GenNewYamlParams.MissingDistinct | project/genNewYamlParams.py:27 | walking a set gives each missing date once |
| GenNewYamlParams.MissingNone | project/genNewYamlParams.py:27-28 | when every found date is listed, nothing is missing |
| GenNewYamlParams.AddDaysGet | project/genNewYamlParams.py:31-32 | after the updates, a missing date maps to a fresh entry and every other key keeps its entry |
| GenNewYamlParams.AddDaysKeys | project/genNewYamlParams.py:31-32 | the keys after the updates are the old keys followed by the missing dates |
| GenNewYamlParams.AddDays | project/genNewYamlParams.py:29-32 | `update(genSampleObj(date))` for each missing date in turn (stated by `AddDaysGet` and `AddDaysKeys`) |
| GenNewYamlParams.GenNewYaml | project/genNewYamlParams.py:21-37 | the generator as written computes `NewDays` |
| GenNewYamlParams.NewDays | project/genNewYamlParams.py:21-37 | the missing dates added, and a rewrite exactly when some were missing (stated by `NewDaysMeans`) |
| GenNewYamlParams.NewDaysMeans | project/genNewYamlParams.py:21-37 | the new keys are the old keys followed by the missing dates; a date is listed exactly when it was listed or found; old entries are unchanged and new ones are fresh; the file is rewritten exactly when some found date was missing |
| GenNewYamlParams.GenerateTwice | project/genNewYamlParams.py:21-37 | running the generator again on the same dates adds nothing and does not rewrite the file |

## Findings

| source | as written | input that shows it | evidently intended | confidence | as-written member | corrected member |
|---|---|---|---|---|---|---|
| project/dataCleaning.py:161 (and dataCleaning.py:160) | `temp['Date_Time'][idx+1]` looks up the row by its LABEL. After the window filter, labels are positions in the whole table, not in the window. So once rows before the window are cut, each lookup reads the wrong row, or no row (a swallowed `KeyError`) | rows at 5, 10 and 100 s, window (5, 1000); the row at 5 s is exactly at the window start and cut-off, so `cleanUp` keeps it and the window's labels start at 1: no gap is counted, though 10 → 100 is a 90 s gap | compare consecutive rows of the window by position | not executed | DataCleaning.LabelLookupMissesGap | DataCleaning.PositionalGapsExact |
| dataCleaning.py:41 | `newFilesChecked = True` before the loop, so the test at line 93 always passes and the parameter file is rewritten on every run | every day already processed, `processAll` off: nothing changes, yet the file is rewritten | start the flag `False`, or rewrite only when the days changed, as the newer `main` does (project/dataCleaning.py:93) | not executed | LegacyDataCleaning.LegacyIdleStillRewrites | LegacyDataCleaning.RewriteNeededMeans |

The driver's audit (`DataCleaning.AuditAll`) stays on the lookup as
written. The intended audit is `DataCleaning.IntendedAudit`, which
`PositionalGapsExact` and `IntendedLostWithin` are about.
`DataCleaning.LabelGapsPositional` shows the two agree whenever the table
starts inside the window.

## Left out

- Files, logging, the log files and the CSV and YAML output: I/O. A file is its list of lines, and the parameter file is the `Days` value.
- `pd.read_csv`, `pd.Timestamp`/`pd.to_datetime` and `strftime` are function parameters (`Reader`, `Parser`, `Formatter`); their own behaviour is not modelled.
- `glob` and the later stages behind one day are the `Runner` function parameter of `DataCleaning.MainDays` and `LegacyDataCleaning.LegacyMain`: whatever `cleanUp`, the audit, the interpolation and the merge do for a day is reduced to the `filesChecked` it returns, or to an exception.
- FillDataFrame.Fill: models the call with `start` and `end` given, as both drivers make it. The branches that take them from the table (fillDataFrame.py:8-16) are left out.
- FillDataFrame.Fill: the `accuracy` percentages are floating point; the model returns the three counts behind them.
- FillDataFrame.Lerp: readings are integers. The interpolated value is the exact floor of `prev + (cur − prev)·step/val`, without floating-point rounding.
- DataCleaning.Merged: leaves out the `Average` and `Variance` columns, which are floating-point statistics. Upsampling is over exact reals.
- DataCleaning.Audit: leaves out `percentZero`, the `errors` set and the formatted log text. The report keeps the counts and durations.
- DataCleaning.Seconds: `Timedelta.seconds` is the gap modulo one day; the driver's `str(...)` keys of `errorCount` are the integers themselves.
- DataCleaning.AuditAll: leaves out the `KeyError` that a missing particle column raises in `percentZero`.
- DataCleaning.HasColumn: a precondition of the merge. The `KeyError` of a missing particle column in `mergeDataFrames` is not modelled as an error value.
- CleanUpData.Load: leaves out the `TypeError` branch (cleanUpData.py:94-96). It is reachable only when the `Date_Time` column is neither converted nor strings, which the table model cannot express.
- CleanUpData.Load: leaves out the column-name cleanup and `dropna(how='all')`; they are part of the `Reader` parameter.
- CleanUpData.Repair: when a stamp fails to parse part-way through a file, the source has already rewritten the file up to that line. The model reports the exception and does not keep that partial rewrite on disk.
- CleanUpData.BadDateEnd: `\d` and `\s` are ASCII digits and whitespace here, whereas Python's `re` on `str` also accepts other Unicode digits and spaces. The same holds for GenNewYamlParams.MatchAt.
- GenNewYamlParams.GenNewYaml: `datesInData` is a set, and the order Python iterates it in decides the order new days are added. The model takes that order as the `dates` parameter and requires only that it lists each found date once.
- DataCleaning.MainDays: the rewrite test `conditionDictionary == getConditions()` compares dicts regardless of key order. The model compares the days as ordered sequences, and the loops never reorder keys.
- LegacyDataCleaning: the older driver imports `fillDataFrame` from the top of the repository. That file is not part of this model; the shared resampler is the one in project/fillDataFrame.py.
- CleanUpData.AutoFix: returns the parseable rows for any number of distinct bad stamps. The source recurses once per distinct unparseable stamp and raises `RecursionError` past Python's recursion limit (about 1000); that limit is not modelled.
- CleanUpData.TimeSpanAt and CleanUpData.SensorNameAt: `\s` and `\d` are ASCII whitespace and digits, whereas Python's `re` on `str` also accepts other Unicode spaces and digits.
- CleanUpData.Load: the table's rows are taken by position. `df['Date_Time'][0]` (cleanUpData.py:67) is a label lookup, so a non-empty table whose row 0 was removed by `dropna(how='all')` raises `KeyError` in the source; the model raises `EmptyTable` only on an empty table.
- `main`'s setup (removing old logs, reading the columns and sensor conditions) is I/O and is not modelled beyond the arguments it passes on.
