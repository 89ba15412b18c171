# RoadSense AI: the event clean-and-classify pass, in Dafny

RoadSense AI is a dashboard that shows road events on a Toronto map. It fetches the events from the Ontario 511 feed. Its one piece of logic is in `fetch_clean_511`: it turns the feed's records into map markers, and the dashboard then shows the markers of one selected day. This project models that pass and proves what it does:

- **Clean.** Field names are lower-cased. `starttime` and `endtime` are parsed as timestamps, and `latitude` and `longitude` as numbers. A value that does not parse becomes null.
- **Drop.** A row that lacks a start time or a coordinate is removed. The other rows keep their order.
- **Classify.** Three case-insensitive substring flags are computed, and `event_color` turns them into one colour. The order is: red for a collision or accident, then orange for a stopped, stalled or disabled vehicle, then blue for a lane, then green.
- **Date slice.** The dashboard keeps the rows whose start date is the selected date.

The modules:

- `Text` (text.dfy): ASCII lower-casing and substring search. These are the pieces behind `str.lower()` and `str.contains(…, case=False)`.
- `Seqs` (seqs.dfy): selection by a boolean mask (`df[mask]`) as `Filter`. Its lemmas cover order, locality and emptiness.
- `Records` (records.dfy): feed records as ordered fields of JSON scalars. It holds the cell lookup, the lower-casing of names and the frame's column set.
- `Classify` (classify.dfy): the flag columns and `event_color`.
- `RoadEvents` (pipeline.dfy): the pass as specification functions (`FetchCleanSpec`, `Events`), the two loop methods that carry it out row by row (`NormaliseAndCoerce`, `DropAndClassify`, joined in `FetchClean`), and the date slice.
- `Scenarios` (scenarios.dfy): worked examples on concrete records.

Timestamp and number parsing (`pd.to_datetime` and `pd.to_numeric` with `errors="coerce"`) are function parameters that return an `Option`. A null cell stays null whatever the parser does. The pass does no arithmetic on coordinates, so they are kept as opaque `real` values.

The code does not do what one might expect on an empty feed. `pd.DataFrame([])` has no columns, so `df["starttime"]` at app.py:32 raises `KeyError`; it does not return an empty frame. The same happens whenever a selected column (`starttime`, `latitude`, `longitude`, `eventtype`, `eventsubtype`) appears in no record at all. The model follows the code. `FetchCleanSpec` returns `Failure(MissingColumn(c))` for the first such column, in the order the code selects the columns (`EmptyPayloadFails`, `FetchCleanFailsIff`).

## Model

| member | source | states |
|---|---|---|
| Text.Lower | app.py:20 | `c.lower()` on a name: the same length, no capital letter left, each capital replaced by its lower-case letter, every other character kept |
| Text.LowerIdempotent | app.py:20 | lower-casing twice gives the same text as once |
| Text.LowerOfLowerCase | app.py:20 | a text without capitals is its own lower-case form |
| Text.ContainsIffOccurs | app.py:35-37 | the substring scan succeeds exactly when the word occurs at some position of the text |
| Text.ContainsAnyIgnoresCase | app.py:35-37 | two texts equal up to case match the same alternation of words (`case=False`) |
| Text.ContainsAnyWhenOccurs | app.py:35-37 | a text in which one alternative occurs, in any case, matches the alternation |
| Text.NotContainsWithoutChar | app.py:35-37 | a word with a character the text lacks does not occur in it |
| Seqs.Filter | app.py:32 | the mask selection keeps only rows that satisfy the mask, and every row that does; none is invented |
| Seqs.KeptIndices | app.py:32 | the positions that pass the mask, strictly increasing, each in range and passing, and none left out |
| Seqs.FilterSelectsKeptIndices | app.py:32 | order preservation: the selection is the input read at the passing positions in increasing order |
| Seqs.FilterConcat | app.py:32 | locality: the selection of a concatenation is the concatenation of the selections |
| Seqs.FilterSingleton | app.py:32 | a single row is kept exactly when it passes the mask |
| Seqs.FilterSnoc | app.py:32 | one more input row adds that row at the end exactly when it passes |
| Seqs.FilterEmptyIff | app.py:32 | the selection is empty exactly when no row passes |
| Records.LookupFirst | app.py:19-20 | a cell is the value of the record's first field with that name, and null when the record lacks the field |
| Records.NormaliseNames | app.py:20 | renaming keeps every value and the field order and lower-cases every name |
| Records.NormaliseNamesIdempotent | app.py:20 | normalising names twice equals normalising once |
| Records.LookupIgnoresCase | app.py:20 | after normalisation a key in any case finds the first field whose name equals it up to case, or null |
| Records.LookupCapitalisedKeyIsNull | app.py:20 | a key with a capital letter matches no normalised name |
| Records.AbsentColumnIsNull | app.py:19 | a name that is no column of the frame is null in every row |
| Classify.ColorPrecedence | app.py:39-43 | each colour is chosen exactly when its flag is set and every earlier flag is clear: red, orange, blue, then green |
| Classify.CollisionTypeIsRed | app.py:35-40 | a row whose `eventtype` contains "collision" or "accident" in any case is red whatever its subtype |
| Classify.RowColorIff | app.py:35-43 | both directions for each colour in terms of the three pattern matches on the row's own cells |
| Classify.MissingTextIsGreen | app.py:35-43 | with no text in `eventtype` and `eventsubtype` (`na=False`) no flag is set and the row is green |
| RoadEvents.FirstMissing | app.py:32-37 | none exactly when every selected column exists, otherwise the first absent one in selection order |
| RoadEvents.EventsAreKeptRecords | app.py:23-32 | the output is built from the records whose start time and coordinates parse, at strictly increasing input positions, each from its own record, and every such record is there |
| RoadEvents.EventsOfOne | app.py:23-44 | a record yields one event with its parsed start, end and coordinates and its own row colour when start and coordinates parse, whatever the end time; otherwise none |
| RoadEvents.EventsConcat | app.py:32 | the pass over a concatenation is the pass over each part: no record's fate depends on another |
| RoadEvents.UnparseableRecordDropped | app.py:23-32 | a record whose start time or a coordinate is missing or unparseable is dropped, and the rest come out as if it were absent |
| RoadEvents.FetchCleanFailsIff | app.py:32-37 | the pass raises exactly when a selected column is absent from the frame; otherwise it returns the classified rows |
| RoadEvents.EmptyPayloadFails | app.py:19-32 | an empty feed raises `KeyError` for `starttime` |
| RoadEvents.DateSliceSpec | app.py:55 | the slice holds exactly the events starting on the date, at strictly increasing positions, and is empty exactly when none does |
| RoadEvents.NormaliseAndCoerce | app.py:20-30 | the row-by-row loop produces the frame with lower-cased names and the coerced time and coordinate cells |
| RoadEvents.DropAndClassify | app.py:32-44 | the row-by-row loop keeps exactly the complete rows, in order, and adds their flags and colour |
| RoadEvents.FetchClean | app.py:20-46 | the loop form of the pass returns what the specification of the whole pass returns, including the `KeyError` cases |
| Scenarios.CollisionBeatsLaneClosure | app.py:35-40 | a "Collision" row with a "Lane Closure" subtype is red |
| Scenarios.LaneClosedIsBlue | app.py:35-42 | a "Road Work" row with a "Lane Closed" subtype is blue |
| Scenarios.StalledVehicleIsOrange | app.py:35-41 | a "Road Work" row with a "Vehicle Stalled" subtype is orange, ahead of the lane check |
| Scenarios.UnparseableStartExcluded | app.py:23-32 | a record with start time "not-a-date" is left out, whatever its other fields |
| Scenarios.CollisionRecordOnItsDate | app.py:20-55 | a collision record with mixed-case field names becomes one red event with its parsed values and no end time, and it is in the slice of its start date |

## Left out

- The HTTP request and JSON decoding (app.py:16-19) are network I/O. The model starts from the decoded records. JSON values that are arrays or objects are not modelled.
- The `@st.cache_data(ttl=3600)` memoisation (app.py:14) is a time-based cache in a foreign library.
- The internals of `pd.to_datetime` and `pd.to_numeric` (app.py:25, 30) are foreign parsers. The model takes them as parameters. It fixes no timestamp format and no time-zone handling. A `Timestamp` carries its calendar date.
- pandas 2 infers one timestamp format per column from its first non-null value. The model's time parser maps one cell at a time. A caller can stand for that inference by picking the parser after seeing the column. The locality lemmas (`EventsConcat`, `UnparseableRecordDropped`) hold for one fixed parser.
- Latitude and longitude are `real` values. Floating point is not modelled, and a value that parses to NaN counts as a parse failure.
- Case folding covers ASCII letters only. Python's `str.lower()` and the `IGNORECASE` flag also fold non-ASCII letters.
- The patterns are modelled as alternations of plain words. They contain no other regular-expression syntax.
- Two feed keys that differ only in case (`StartTime` and `starttime`) give pandas two columns with the same name, and the selections then fail. The model instead reads the first field with the name.
- pandas refuses `.str` on a column that holds no text at all (`AttributeError`). The model treats every non-text cell as matching nothing.
- In pandas the coerced values replace the raw cells, and the flags and colour become new columns. The model keeps the lower-cased raw fields in `fields` and holds the parsed values, flags and colour as fields of `Event`. An absent `endtime` column and a null `endtime` cell both give an absent end time; nothing later reads that cell.
- The Streamlit page setup, the date picker and its min/max bounds (app.py:9-11, 52-54) are GUI code. The slice is modelled for any given date.
- The Folium map, marker clustering, popups, legend and display (app.py:58-89) are rendering.
