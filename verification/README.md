# Ecometrics groundwater profile viewer — verified model

The system shows groundwater levels along a surveyed cross-section. A Python
converter reads one Excel workbook per profile and writes three JSON files:

- the elevation profile;
- the wells with the lowest and highest water level seen in each;
- one water-level snapshot per timestamp.

It also writes a manifest of the profile prefixes. A React viewer loads the
three files of a profile. It draws the snapshot at the current index. It lets
the user step through the snapshots with buttons or animate them.

This project models that core in Dafny:

- `NavButtonPanel` (`nav_button_panel.dfy`): the six-button navigation panel.
  - A class `Panel` holds the index and the last index.
  - Its methods implement "decrement", "increment" and "jump to". Each is
    proved against a pure transition function.
  - It also models which buttons are disabled.
- `App` (`app.dfy`): the viewer component.
  - The class `AppState` holds the profile prefix, the snapshot index, the
    interval handle, and the set of intervals the browser runs for the
    component.
  - Its methods are "Previous", "Next", "Start", "Stop", one animation tick
    and "Change Profile".
  - Pure functions give the render's choice of view, the drawing effect's
    guard and the resource names.
- `DateConvert` (`date_convert.dfy`): `convert_date`.
  - It splits the input on its one space and keeps the hours.
  - It models `strptime` with the format `%Y-%m-%dT%H:%M:%S`, with the
    calendar checks `datetime` makes.
  - It models `isoformat(timespec='minutes')`.
- `Converter` (`converter.dfy`): `format_waterlevel`, `write_waterlevels`,
  `write_elevations` and `write_wells`, up to the JSON write.
  - Each is a function over sequences of rows.
  - The `append` loops are methods proved equal to those functions.
- `ConverterMain` (`converter_main.dfy`): what `main` derives for each
  workbook.
  - The label comes from the first sheet's name, and gives the sheet names,
    the output prefix and file names, and the manifest.
  - Water levels are prepared in three steps: NaN rows are dropped,
    timestamps are cut to 16 characters, and only the first row of each
    timestamp is kept.
  - The whole per-workbook result is one function. Its contract gives its
    failure case; lemmas cover its snapshots and its other outputs.
  - `Run` is `main` over all workbooks. It writes the manifest first, then
    converts the workbooks in order. A `KeyError` is not caught, so the
    first one ends the run, and the manifest then names files that were
    never written (`ConverterMain.ManifestOutrunsRun`).
- `PyBuiltins` (`py_builtins.dfy`) models the Python built-ins the converter
  relies on: `str.split`, `str.join`, one-character `str.replace`, slicing,
  and exceptions as a `Raised` result.
- `Wrappers` (`wrappers.dfy`) holds `Option`.

Spreadsheet cells are `Cell = Num(real) | NaN`. A pandas frame is a sequence
of rows. The wells frame indexed by `well id` is a sequence of `Well`, and
`.loc` is its first match. An exception the converter lets escape is a
`Raises(KeyError(..))` or `Raises(ValueError)` result.

## Model

| member | source | states |
|---|---|---|
| NavButtonPanel.Panel.constructor | src/components/nav-button-panel.tsx:13 | the panel starts at the given index with the given last index |
| NavButtonPanel.Panel.DecrementWaterlevelKey | src/components/nav-button-panel.tsx:16-22 | at index 0 nothing changes; otherwise the index drops by the step, without a lower bound |
| NavButtonPanel.Panel.IncrementWaterlevelKey | src/components/nav-button-panel.tsx:24-30 | at the last index nothing changes; otherwise the index grows by the step, without an upper bound |
| NavButtonPanel.Panel.SetAbsoluteIndex | src/components/nav-button-panel.tsx:32-38 | a target outside 0..maxIndex is ignored; otherwise the index becomes the target |
| NavButtonPanel.Panel.Click | src/components/nav-button-panel.tsx:41-60 | an enabled button moves the index by its handler; the four single-step and skip buttons keep an in-range index in range |
| NavButtonPanel.DecrementSemantics | src/components/nav-button-panel.tsx:16-22 | for a non-zero step, decrementing is a no-op exactly at 0 and subtracts the step elsewhere |
| NavButtonPanel.IncrementSemantics | src/components/nav-button-panel.tsx:24-30 | for a non-zero step, incrementing is a no-op exactly at maxIndex and adds the step elsewhere |
| NavButtonPanel.JumpSemantics | src/components/nav-button-panel.tsx:32-38 | a jump lands on an in-range target, ignores one out of range, and jumping twice equals jumping once |
| NavButtonPanel.SingleStepsKeepRange | src/components/nav-button-panel.tsx:41-60 | first, previous, next and last keep the index within 0..maxIndex |
| NavButtonPanel.FastStepsLeaveRange | src/components/nav-button-panel.tsx:45-56 | the step-12 buttons leave the range: 5 goes to -7, and 10 with last index 20 goes to 22 |
| NavButtonPanel.PastEndRunsAway | src/components/nav-button-panel.tsx:24-30 | once past the last index, n clicks of next or fast-forward add n or 12n, so the index never comes back |
| NavButtonPanel.BeforeStartRunsAway | src/components/nav-button-panel.tsx:16-22 | once below 0, n clicks of previous or fast-backward subtract n or 12n |
| NavButtonPanel.DisabledExactlyWhenNoOp | src/components/nav-button-panel.tsx:42-57 | with a non-empty series, "skip to first" or "skip to last" is disabled exactly when clicking it would not move the index |
| App.ResourceNamesCollisionFree | src/App.tsx:75-77 | two resource names are equal only for the same kind and the same prefix |
| App.SnapshotAt | src/App.tsx:92 | the snapshot at an index exists exactly when the index is inside the series, and is the series' entry at that index |
| App.SelectView | src/App.tsx:131-143 | loading wins over error, error over missing data, missing data over the chart; the chart shows the prefix, the three counts and the current snapshot's label |
| App.PlotInput | src/App.tsx:79-104 | the effect draws exactly when all three datasets are present, with the snapshot at the current index or none outside the series |
| App.ChartViewIsPlotted | src/App.tsx:79-143 | whenever the chart view is rendered the effect draws, and it draws a snapshot exactly when a label is shown |
| App.PreviousSemantics | src/App.tsx:41-47 | "Previous" is a no-op exactly at index 0 and subtracts 12 elsewhere |
| App.NextSemantics | src/App.tsx:49-55 | "Next" is a no-op exactly when the index equals the series length; from the last snapshot it lands 11 past the end, where no series of that length has a snapshot |
| App.NextFromStart | src/App.tsx:49-55 | from index 0, k presses of "Next" reach 12k; they stop at the series length only when that length is a multiple of 12 |
| App.HeldTimers | src/App.tsx:57-72 | the component holds at most one interval, and none exactly when no handle is stored |
| App.AppState.constructor | src/App.tsx:37-39 | the first profile, index 0, no interval |
| App.AppState.DecrementWaterlevelKey | src/App.tsx:41-47 | the new index is the "Previous" transition of the old one |
| App.AppState.IncrementWaterlevelKey | src/App.tsx:49-55 | the new index is the "Next" transition of the old one, given the series length or its absence |
| App.AppState.StartAnimation | src/App.tsx:57-64 | with a handle held nothing changes; otherwise the new interval's handle is stored and is the only one running |
| App.AppState.StopAnimation | src/App.tsx:66-72 | afterwards no handle is stored and no interval runs |
| App.AppState.Tick | src/App.tsx:63 | each firing of the running interval adds 1 to the index, with no bound |
| App.AppState.ChangeProfile | src/App.tsx:149 | "Change Profile" leaves the prefix at "xs1", the first entry of the list and the only profile ever selected, and keeps the state valid |
| App.StartTwiceThenStop | src/App.tsx:57-72 | starting twice leaves one interval running, one stop leaves none, and the index stays 0 throughout |
| PyBuiltins.Split | ecometrics-excel-to-json.py:16 | `split` gives one more part than separators, no part holds the separator, and joining the parts gives the input back |
| PyBuiltins.SplitJoin | ecometrics-excel-to-json.py:178 | splitting the join of separator-free parts gives those parts back |
| PyBuiltins.SplitSnoc | ecometrics-excel-to-json.py:178 | appending a separator and a separator-free word appends that word to the split |
| PyBuiltins.ReplaceChar | ecometrics-excel-to-json.py:181 | each character equal to the old one becomes the new one, every other character is kept, and so none of the old character is left |
| PyBuiltins.Slice | ecometrics-excel-to-json.py:192 | `s[0:n]` is all of s when s is no longer than n, and its first n characters otherwise |
| DateConvert.Strptime | ecometrics-excel-to-json.py:20 | every parsed value is a valid date and time (years 1 to 9999, real month lengths, hours up to 23) |
| DateConvert.IsoMinutes | ecometrics-excel-to-json.py:20 | `isoformat(timespec='minutes')` prints sixteen characters, "YYYY-MM-DDTHH:MM", whose digit fields read back as the year, month, day, hour and minute of a valid date and time |
| DateConvert.Pad | ecometrics-excel-to-json.py:20 | the zero-padded field has the requested width, holds only digits, and reads back as the number when it has at most `width` digits |
| DateConvert.PadDigitsValue | ecometrics-excel-to-json.py:20 | padding the value of a digit string to its own width gives the string back |
| DateConvert.ConvertDate | ecometrics-excel-to-json.py:15-23 | raises ValueError exactly when the input does not hold exactly one space; any string it returns has the shape "YYYY-MM-DDTHH:00" |
| DateConvert.ConvertDateRebuilt | ecometrics-excel-to-json.py:15-23 | the result is strptime applied to "<date>T<hours>:00:00" and printed to the minute, or None when that does not parse |
| DateConvert.ConvertDateIgnoresMinutes | ecometrics-excel-to-json.py:15-18 | two inputs differing only after the hour convert alike, so minutes are dropped as well as seconds |
| DateConvert.ConvertDateCanonical | ecometrics-excel-to-json.py:15-23 | a "YYYY-MM-DD HH:..." input gives "YYYY-MM-DDTHH:00" when the date is a real calendar date and HH <= 23, and None otherwise |
| Converter.Filter | ecometrics-excel-to-json.py:189 | `dropna` keeps exactly the rows without NaN |
| Converter.FilterAppend | ecometrics-excel-to-json.py:189 | dropping rows keeps the order: it distributes over concatenation |
| Converter.FilterAll | ecometrics-excel-to-json.py:109 | dropping NaN again from rows that have none changes nothing |
| Converter.DropNa | ecometrics-excel-to-json.py:189 | `dropna` keeps only complete rows of the input, and keeps every complete row |
| Converter.KeptPositions | ecometrics-excel-to-json.py:189 | the positions `dropna` keeps are increasing, in range and each holds an accepted row |
| Converter.KeptPositionsRead | ecometrics-excel-to-json.py:189 | the filtered rows are the input rows at the kept positions, in order |
| Converter.KeptPositionsComplete | ecometrics-excel-to-json.py:189 | every accepted position is kept |
| Converter.WellsOf | ecometrics-excel-to-json.py:207-208 | the wells are exactly the ground rows with a well id, a station and a ground elevation |
| Converter.WellsInSheetOrder | ecometrics-excel-to-json.py:207-208 | well i is built from the i-th complete ground row (`Filter`), which sits at the i-th kept position; these positions increase and cover every complete row (`KeptPositions`, `KeptPositionsComplete`), so each such row gives one well, in sheet order |
| Converter.Lookup | ecometrics-excel-to-json.py:40 | `wells.loc[id]` finds a well with that id exactly when one exists |
| Converter.FormatValuesSpec | ecometrics-excel-to-json.py:31-43 | reading i is column i's well id, that well's station and the level; the first column whose id is no well raises KeyError for that id |
| Converter.FormatWaterlevel | ecometrics-excel-to-json.py:31-43 | a snapshot is returned exactly when every column's id is a well; it is labelled with the row's timestamp and reading i is column i's id, that well's station and the level; otherwise KeyError names the first unknown id |
| Converter.FormatWaterlevelLoop | ecometrics-excel-to-json.py:31-43 | the append loop gives the snapshot labelled with the row's timestamp, or the KeyError |
| Converter.FormatAllSpec | ecometrics-excel-to-json.py:107-110 | formatting the rows fails exactly when there is a row and some column id is no well, with the first row's error; otherwise snapshot k formats row k |
| Converter.WriteWaterlevels | ecometrics-excel-to-json.py:107-110 | the output raises exactly when a complete row exists and some column id is no well, with the KeyError of the first such column; otherwise it has one snapshot per complete row |
| Converter.WaterlevelsKeepCompleteRows | ecometrics-excel-to-json.py:107-110 | the output has one snapshot per complete row, in order, with its timestamp, its well ids and its levels, all numbers |
| Converter.WaterlevelsOfCompleteRows | ecometrics-excel-to-json.py:107-110 | when no row has a NaN, a returned output has one snapshot per row, in order, labelled with its timestamp, with numeric levels |
| Converter.WriteWaterlevelsLoop | ecometrics-excel-to-json.py:107-110 | the append loop computes the water-level output, stopping at the first KeyError |
| Converter.WriteElevations | ecometrics-excel-to-json.py:67-73 | one point per ground row, in order, with its station and ground elevation |
| Converter.WriteElevationsLoop | ecometrics-excel-to-json.py:67-73 | the append loop computes the elevation output |
| Converter.Extremes | ecometrics-excel-to-json.py:140-144 | min_z and max_z are numbers exactly when the well has a column holding at least one number, and NaN otherwise; then min_z <= max_z, both bound every level in that column, and both occur there |
| Converter.WriteWells | ecometrics-excel-to-json.py:138-149 | one record per well, in order, with its extremes |
| Converter.WellsMinNotAboveMax | ecometrics-excel-to-json.py:138-149 | no record has min_z above max_z; each record's x and surface are the well's station and ground elevation; its extremes are numbers exactly when the well's column holds a number |
| Converter.WriteWellsLoop | ecometrics-excel-to-json.py:146-149 | the append loop computes the wells output |
| ConverterMain.SheetLabel | ecometrics-excel-to-json.py:178 | the label is everything before the last space of the sheet name, or "" when there is no space |
| ConverterMain.SheetLabelAppend | ecometrics-excel-to-json.py:178 | the label of "<label> <word>", for a word without spaces, is the label |
| ConverterMain.SheetNamesRoundTrip | ecometrics-excel-to-json.py:178-202 | a first sheet named "<label> water" yields the label back, so the sheets read are "<label> water" and "<label> ground" |
| ConverterMain.OutputPrefix | ecometrics-excel-to-json.py:181 | the prefix is the label with each space turned into an underscore: same length, other characters kept, no space left |
| ConverterMain.OutputFilesOf | ecometrics-excel-to-json.py:211-213 | the three output files have distinct names, and they are the names the viewer derives from the label's prefix |
| ConverterMain.Manifest | ecometrics-excel-to-json.py:180-182 | one prefix per workbook, each free of spaces and as long as its label, from which the viewer derives the names of the files written when that workbook converts |
| ConverterMain.TruncateTimestamps | ecometrics-excel-to-json.py:192 | every timestamp is cut to its first 16 characters, and the levels are untouched |
| ConverterMain.FirstOccurrences | ecometrics-excel-to-json.py:195 | the kept positions are increasing and are exactly the rows whose timestamp has not appeared before |
| ConverterMain.DropDuplicates | ecometrics-excel-to-json.py:195 | the kept rows are the rows at the first occurrence of each timestamp, in input order, so no two kept rows share a timestamp |
| ConverterMain.DropDuplicatesKeepsEveryTimestamp | ecometrics-excel-to-json.py:195 | every input timestamp is still present after deduplication |
| ConverterMain.SameMinuteKeepsFirst | ecometrics-excel-to-json.py:192-195 | two readings in the same minute collapse to the first one, with its timestamp cut to the minute |
| ConverterMain.DropDuplicatesCount | ecometrics-excel-to-json.py:193-200 | the count after deduplication is the number of distinct timestamps, so the reported removals are the rows beyond the first of each |
| ConverterMain.PrepareLevels | ecometrics-excel-to-json.py:189-195 | prepared rows keep the well columns; each is the first complete input row of its minute, with its timestamp cut to 16 characters; the minute of every complete input row is kept; no two share a timestamp |
| ConverterMain.PreparedRowIsFirst | ecometrics-excel-to-json.py:189-195 | each prepared row is the first complete row of its minute, cut to the minute |
| ConverterMain.PreparedKeepsMinute | ecometrics-excel-to-json.py:189-195 | the minute of any complete row is among the prepared rows |
| ConverterMain.PreparedInInputOrder | ecometrics-excel-to-json.py:189-195 | the prepared rows are complete sheet rows cut to the minute, at increasing sheet positions, so `dropna` and `drop_duplicates` keep the order |
| ConverterMain.PreparedFails | ecometrics-excel-to-json.py:107-110 | for a table with no NaN, the water-level output fails exactly when there is a row and some column id is no well |
| ConverterMain.PreparedSnapshots | ecometrics-excel-to-json.py:107-110 | for a table with no NaN and distinct timestamps of at most 16 characters, a returned output has one snapshot per row, in order, with distinct labels of at most 16 characters and numeric levels |
| ConverterMain.ConvertWorkbook | ecometrics-excel-to-json.py:185-217 | a workbook raises exactly when a prepared row exists and a well column names no well, with the KeyError of the first such column |
| ConverterMain.ConvertWorkbookSnapshots | ecometrics-excel-to-json.py:185-215 | a converted workbook's snapshots follow the prepared rows, with distinct labels of at most 16 characters and numeric levels |
| ConverterMain.ConvertWorkbookKeepsMinutes | ecometrics-excel-to-json.py:185-195 | the minute of every complete input row is the label of a snapshot of the converted workbook |
| ConverterMain.ConvertWorkbookInInputOrder | ecometrics-excel-to-json.py:185-195 | the snapshots of a converted workbook are labelled with the minutes of complete sheet rows at increasing positions, so the series is in sheet order |
| ConverterMain.ConvertWorkbookRecords | ecometrics-excel-to-json.py:185-217 | a converted workbook has one record per well with min_z <= max_z, one elevation point per survey station, and files named after the label |
| ConverterMain.UntilRaise | ecometrics-excel-to-json.py:185-217 | a loop whose exceptions escape returns the results before the first exception and that exception; without one, every result |
| ConverterMain.ConvertAll | ecometrics-excel-to-json.py:185-217 | the workbooks convert in manifest order until the first one that raises; the outputs before it are kept, and that workbook's error ends the run |
| ConverterMain.Labels | ecometrics-excel-to-json.py:171-179 | the label loop gives each workbook the label of its first sheet, in order |
| ConverterMain.ConvertLoop | ecometrics-excel-to-json.py:185-217 | the conversion loop writes each workbook's output in manifest order and stops at the first raised error, the same outputs and error as `ConvertAll` |
| ConverterMain.Run | ecometrics-excel-to-json.py:171-217 | `main` writes the manifest of the prefixes of all workbooks, then the outputs `ConvertAll` gives, ending at the first error |
| ConverterMain.ManifestOutrunsRun | ecometrics-excel-to-json.py:180-217 | the manifest names every workbook; the run converts all of them exactly when it ends without error, and the viewer's names for each converted workbook are the files written for it |

## Left out

- File and network I/O are not modelled.
  - Converter side: the manifest check, `makedirs`, reading the workbooks, `json.dump` and the progress messages.
  - Viewer side: the JSON fetches. The loading hook (`src/hooks/useLoadJson.ts` is not part of this model) is reduced to its reported `loading`, `error` and `data`. Its behaviour when the prefix changes while a fetch is in flight is not modelled.
- Rendering is not modelled: the Observable Plot marks, the DOM container, and the cleanup that removes the plot.
- Timing is not modelled.
  - The 250 ms period of the interval is left out: a tick is an event on a running interval.
  - React's asynchronous state updates and the stale closure of `startAnimation` are left out. The model applies each handler to the current state, so it cannot show a second interval started before the first handle is stored.
- Converter.Lookup: when several wells share an id, pandas `.loc` returns several rows, and the later JSON write fails. The model takes the first match instead.
- Converter.WriteWells: pandas `concat` aligns the wells with the column minima by the union of ids.
  - In the model, a column whose id is no well gives no extra record. That only matters when there are no water-level rows, since with rows it raises KeyError first.
  - The model lists the records in the wells' order, whereas pandas may order them differently when the two indexes differ.
- Well column headers are strings in the model. `str(k)` and `astype(str)` of numeric headers, and the float formatting behind them, are left out.
- DateConvert.Strptime: accepts ASCII digits only. The library also accepts other Unicode decimal digits and a space before a one-digit field. A 'T' written by the converter itself is the only separator it sees.
- ConverterMain.Run: a workbook is given as its first sheet's name and the two sheets read by the derived names. The file paths, and the `read_excel` error for a missing sheet, are not modelled.
- DateConvert.ConvertDate: the message printed when parsing fails is left out.
- `convert_date` is defined but never called by `main`. There, timestamps are only cut to 16 characters, so no `T` is inserted. The model keeps both behaviours.
- `write_elevations` applies `float(...)` to cells that are already numeric or NaN; the conversion is the identity on `Cell`.
- Floating-point values are exact reals: ordering in min and max is exact, and NaN is a separate case rather than a float.
- The `Plot` width, margins, colours and well rectangles are left out.

## Where the source's comments and its code disagree

The model follows the code where the two disagree:

- The viewer's "Next" guard compares the index with the series length, not the last index. `App.NextSemantics` shows that from the last snapshot it goes 11 past the end.
- The panel's step-12 buttons leave the valid range (`NavButtonPanel.FastStepsLeaveRange`).
- The wells example comment shows `min_z` above `max_z`. The computed records never do (`Converter.WellsMinNotAboveMax`).
- The comment on `convert_date` says seconds are ignored; minutes are too (`DateConvert.ConvertDateIgnoresMinutes`).
- The converter writes the elevation points as `x`/`z`, while the viewer's `Elevation` type names `distance_along_profile`/`elevation`. The model keeps each side's own field names.
