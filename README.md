# Delmarva load profiles, modelled in Dafny

The `Delmarva` class downloads the daily load-profile files that the utility
Delmarva Power publishes for its Delaware (`CND`) and Maryland (`CNM`)
service areas. It parses each file into a table with one row per customer
segment and one column per hour. It gathers a date range of these tables and
writes them out for an Oracle upload. This project models the parts of that
class that decide what is fetched and what the tables contain:

- **Fetch** (`_retrieve_raw_data`):
  - the configuration constants `ldc_state`, `ldcs` and the `delmarva_url` template;
  - rejection of an unknown LDC;
  - the URL fields (lower- and upper-case state, year, zero-padded month, `YYYYMMDD`, revision index);
  - the fallback that tries revision 2, then revision 1, and returns the first body answered with status 200.

  The HTTP request is a parameter `get` from URL to response.
- **Parser** (`get_lp_series`):
  - carriage returns removed and the text split into lines;
  - lines kept by position (> 3) and length (> 1), then split on whitespace;
  - the row-count test, and the schema chosen from the first row's width (26 columns, or 27 on the autumn daylight-saving day);
  - the DataFrame built from the rows, its columns converted in place one by one, and `H02X` folded into `H02`.

  The DataFrame is the class `Frames.Frame`, whose methods change its columns
  in place. Each method is proved against a function on the value
  `Frames.Table`. Float parsing and `%m/%d/%Y` date parsing are the
  parameters `num` and `when`.
- **Range and export name** (`get_lp_data`, `export_for_oracle`):
  - every day of an inclusive range crossed with `CND` then `CNM`;
  - the per-request tables gathered, with `None` dropped, and stacked;
  - the default upload name `Conectiv_YYYYMMDD.txt` for the earliest date.

Modules:
- `Core`: the `Option` and `Result` wrappers and the error kinds.
- `Strings`: the Python string operations the code uses, namely `split`, `split()`, `strip`, `zfill`, `str(int)`, `lower` and `upper`.
- `Calendar`: dates, `date_range` and `%Y%m%d`.
- `Template`: `str.format` on the URL template.
- `Fetch`, `Frames`, `Series` and `Range`.

Details of the parser and the range that the model keeps as the code has them:
- A line is kept when it is longer than one character and sits past the four header lines. A line of two or more blanks therefore becomes an empty row (`Series.BlankLineKept`). A one-character line is dropped even when it holds data.
- The header lines are the lines at positions 0 to 3, whatever they hold (`Series.HeaderIgnored`).
- The partial-data warning is printed only when exactly one row survives (`Series.CheckRowCount`).
- When every request of a range returns `None`, `pd.concat` receives nothing to concatenate and raises; the model gives `NoObjectsToConcatenate` (`Range.LpDataErrors`).
- Only the first row's width picks the schema. Any later row of another width is the error `RaggedRows` (see "Left out").

## Model

| member | source | states |
|---|---|---|
| Strings.RemoveAll | delmarva_load_profiles.py:97 | `replace('\r', '')` leaves no carriage return and keeps every other character |
| Strings.RemoveAllAppend | delmarva_load_profiles.py:97 | removing `\r` distributes over concatenation; with `RemoveAllChar` this makes the result the input with each `\r` dropped and every other character kept, in order and as often as it occurs |
| Strings.RemoveAllChar | delmarva_load_profiles.py:97 | on one character: `\r` vanishes and any other character stays |
| Strings.Split | delmarva_load_profiles.py:97 | `split('\n')` gives at least one piece, none holding the separator, and the pieces joined by the separator are the input |
| Strings.SplitJoin | delmarva_load_profiles.py:97 | splitting the join of separator-free pieces gives the pieces back |
| Strings.Tokens | delmarva_load_profiles.py:98 | `split()` gives non-empty tokens without whitespace, and none exactly when the line is all whitespace |
| Strings.TokensJoin | delmarva_load_profiles.py:98 | the tokens of whitespace-free words joined by single spaces are those words |
| Strings.TokensInterleave | delmarva_load_profiles.py:98 | words laid out with whitespace gaps of any length and kind (inner gaps non-empty, leading and trailing ones possibly empty) split back into exactly those words |
| Strings.SpacesAround | delmarva_load_profiles.py:98 | the whitespace runs of a line around its tokens: one more than the tokens, whitespace only, the inner ones non-empty |
| Strings.SpacesAroundLayout | delmarva_load_profiles.py:98 | every line is its tokens laid out with those runs; with `TokensInterleave`, `split()` of a line is exactly the words of any such layout of it |
| Strings.TokensOfToken | delmarva_load_profiles.py:129 | a token splits to itself |
| Strings.Strip | delmarva_load_profiles.py:129 | `strip()` neither starts nor ends with whitespace, never grows, and leaves a string without edge whitespace unchanged |
| Strings.DropPrefix | delmarva_load_profiles.py:129 | `[8:]` is empty for a string of at most 8 characters, and otherwise the rest after the first 8 |
| Strings.Digits | delmarva_load_profiles.py:59 | `str(n)` is a non-empty string of digits without a leading zero whose value is `n` |
| Strings.DigitsLength | delmarva_load_profiles.py:59 | one digit below 10, two below 100, four for the years 1000 to 9999 |
| Strings.ZeroFill | delmarva_load_profiles.py:60 | `zfill(w)` is `w` long (or the input's length), ends with the input and is zeros before it |
| Strings.ValueZeroFill | delmarva_load_profiles.py:60 | zero-filling keeps the numeric value |
| Strings.Pad2Spells | delmarva_load_profiles.py:60 | the zero-filled month is two digits whose value is the month |
| Strings.Pad2Injective | delmarva_load_profiles.py:60 | different months get different two-digit fields |
| Strings.UpperLower | delmarva_load_profiles.py:62-63 | for an upper-case state code, `upper()` is the code, `upper(lower())` is the code, and `lower()` is all lower-case letters |
| Calendar.NextDay | delmarva_load_profiles.py:149 | the daily step: a later date with no valid day in between, valid below year 10000 |
| Calendar.DateRange | delmarva_load_profiles.py:149 | `date_range(start, end, freq='D')` starts at the start, ends at the end, steps one day, and is empty only when the end precedes the start |
| Calendar.DateRangeMembers | delmarva_load_profiles.py:149 | a day is in the range exactly when it lies between the bounds, both included |
| Calendar.DateRangeIncreasing | delmarva_load_profiles.py:149 | the range is strictly increasing |
| Calendar.CompactDate | delmarva_load_profiles.py:61 | `strftime('%Y%m%d')` is eight digits whose slices spell the year, month and day |
| Calendar.CompactDateInjective | delmarva_load_profiles.py:61 | different days have different `YYYYMMDD` spellings |
| Template.FormatUrl | delmarva_load_profiles.py:33-35 | the URL template filled in is prefix, lower state, `/`, year, `/`, month, `/`, `sDt`, upper state, `A`, index, `.txt` |
| Fetch.StateCodes | delmarva_load_profiles.py:32-44 | every accepted LDC has a state; `CNV` has one but is not accepted; `CND` is `de`/`DE` and `CNM` is `md`/`MD` |
| Fetch.RequestParams | delmarva_load_profiles.py:59-64 | the `params` dict of one request: lower- and upper-case state of the LDC, `str` of the year, zero-filled month, `%Y%m%d` of the day, revision index (spelled out by `UrlSpelled`) |
| Fetch.Url | delmarva_load_profiles.py:58-65 | the URL requested: the template filled with those params (spelled out by `UrlSpelled`) |
| Fetch.UrlSpelled | delmarva_load_profiles.py:58-65 | one request's URL field by field, with a four-digit year and a two-digit month that spells the month |
| Fetch.RevisionsDiffer | delmarva_load_profiles.py:58-65 | the two revisions of one day name different files |
| Fetch.Attempts | delmarva_load_profiles.py:58-65 | the URLs tried, one per revision of `(2, 1)`, in that order |
| Fetch.FirstOk | delmarva_load_profiles.py:58-68 | the position of the first URL answered with 200: every earlier one was not |
| Fetch.FirstBody | delmarva_load_profiles.py:58-70 | the loop's result: the body of the first URL answered with 200, else `NotFound` with the last URL's status (proved of the loop by `RequestInOrder`) |
| Fetch.Tried | delmarva_load_profiles.py:58-70 | the URLs the loop requests: up to and including the first answered with 200, else all of them |
| Fetch.Retrieve | delmarva_load_profiles.py:52-70 | `_retrieve_raw_data`: `Rejected` for an LDC outside `ldcs`, otherwise `FirstBody` of the two revisions' URLs (spelled out by `RetrieveOrder`) |
| Fetch.Requested | delmarva_load_profiles.py:52-70 | the URLs `_retrieve_raw_data` requests: none for a rejected LDC, otherwise `Tried` of the two revisions' URLs |
| Fetch.RetrieveRawData | delmarva_load_profiles.py:52-70 | the method returns what `Retrieve` specifies and requests exactly the URLs `Requested` lists |
| Fetch.RequestInOrder | delmarva_load_profiles.py:58-70 | the loop returns the first 200 body, else the last status, and requests the URLs up to and including the first 200 |
| Fetch.RetrieveOrder | delmarva_load_profiles.py:53-70 | an unknown LDC is rejected with no request made; a 200 on revision 2 wins with one request; otherwise revision 1's 200 body; otherwise revision 1's status |
| Fetch.TwoAttempts | delmarva_load_profiles.py:58-70 | the same three outcomes for any two URLs requested in order |
| Frames.FromRows | delmarva_load_profiles.py:124 | `pd.DataFrame(parsed, columns=cols)`: column `k` holds token `k` of every row, in row order |
| Frames.SetColumn | delmarva_load_profiles.py:133 | `df[c] = col` replaces that column and keeps every other column and the column order |
| Frames.AddColumn | delmarva_load_profiles.py:137 | `df['H02'] += df['H02X']`: each target cell gets its source cell added; other columns are kept |
| Frames.DropColumn | delmarva_load_profiles.py:138 | `del df['H02X']`: the name is gone, the other names keep their order and columns |
| Frames.Frame.constructor | delmarva_load_profiles.py:124 | the new frame holds `FromRows` of the rows |
| Frames.Frame.Get | delmarva_load_profiles.py:133 | `df[c]` is the named column |
| Frames.Frame.Assign | delmarva_load_profiles.py:133 | in place, the frame becomes `SetColumn` of its old contents |
| Frames.Frame.AddInto | delmarva_load_profiles.py:137 | in place and row by row, the frame becomes `AddColumn` of its old contents |
| Frames.Frame.Delete | delmarva_load_profiles.py:138 | in place, the frame becomes `DropColumn` of its old contents |
| Series.Lines | delmarva_load_profiles.py:97 | at least one line, none holding `\r` or `\n`, and joined by newlines they give the text without carriage returns |
| Series.Rows | delmarva_load_profiles.py:98-99 | the list comprehension: the whitespace tokens of each kept line, in line order (stated by `RowsOfKeptLines`) |
| Series.KeptFrom | delmarva_load_profiles.py:98-99 | the kept positions are exactly the lines at position > 3 longer than 1, strictly increasing |
| Series.RowsOfKeptLines | delmarva_load_profiles.py:98-99 | row `k` is the whitespace tokens of the `k`-th kept line, in line order |
| Series.KeptFromSame | delmarva_load_profiles.py:98-99 | from position 4 on, only the lines themselves decide what is kept |
| Series.HeaderIgnored | delmarva_load_profiles.py:98-99 | texts that differ only in lines 0 to 3 give the same rows |
| Series.BlankLineKept | delmarva_load_profiles.py:98-99 | a line of two or more blanks past the header becomes an empty row |
| Series.CheckRowCount | delmarva_load_profiles.py:100-108 | no row is `NoValidData`; exactly one row warns; two or more rows do not warn |
| Series.InsertAt | delmarva_load_profiles.py:118 | `insert(2, x)`: one longer, `x` at position 2, the rest shifted by one |
| Series.HoursSpelled | delmarva_load_profiles.py:113 | 24 hour names, each `H` and two digits spelling 1 to 24 in order |
| Series.Hours | delmarva_load_profiles.py:113 | the list `'H' + str(h).zfill(2)` for `h` from 1 to 24 (spelled out by `HoursSpelled`, `HoursDistinct`, `HoursNamed`) |
| Series.HoursDistinct | delmarva_load_profiles.py:113 | the hour names are all different |
| Series.HoursNamed | delmarva_load_profiles.py:113 | the first three names are `H01`, `H02`, `H03` and the last is `H24` |
| Series.Columns26 | delmarva_load_profiles.py:113-124 | the normal day has 26 different column names, without `H02X` |
| Series.DstHoursDistinct | delmarva_load_profiles.py:117-118 | the daylight-saving day has 25 different hour names |
| Series.DstHours | delmarva_load_profiles.py:117-118 | the daylight-saving day's hours: `H02X` inserted at position 2 (stated by `DstHoursDistinct` and `Columns27`) |
| Series.Columns27 | delmarva_load_profiles.py:117-124 | 27 different names; `H02`, `H02X`, `H03` at positions 3 to 5; dropping `H02X` gives the normal day's names |
| Series.Schema | delmarva_load_profiles.py:111-121 | succeeds exactly for widths 26 and 27, with as many distinct column names as the width; otherwise `InvalidStructure(width)` |
| Series.SegmentOfToken | delmarva_load_profiles.py:129 | on a split token, the segment is empty for 8 characters or fewer and otherwise the token after its first 8 characters |
| Series.Segment | delmarva_load_profiles.py:129 | `s.str.strip().str.slice(start=8)` on one cell (stated by `SegmentOfToken`) |
| Series.Plan | delmarva_load_profiles.py:127-129 | the `dtypes` dict in insertion order: every hour to float, then `date` to a day, then `segment` to its segment (stated by `PlanFitsColumns`) |
| Series.ConvertColumn | delmarva_load_profiles.py:127-129 | a column converts exactly when every cell does, cell by cell in place |
| Series.ConvertAll | delmarva_load_profiles.py:131-133 | the conversion loop keeps the column names and the height |
| Series.ConvertAllSucceeds | delmarva_load_profiles.py:131-133 | the loop succeeds exactly when every planned column converts |
| Series.ConvertAllColumns | delmarva_load_profiles.py:131-133 | after the loop each planned column holds its conversion and unplanned columns are untouched |
| Series.ConvertAllFailure | delmarva_load_profiles.py:131-133 | a failure names the first planned column in `dtypes` order that fails: a float column's name, or the date |
| Series.PlanFitsColumns | delmarva_load_profiles.py:127-129 | `dtypes` names every column exactly once |
| Series.FoldDstSpec | delmarva_load_profiles.py:135-138 | folding gives the 26 normal names, `H02` is the cell-wise sum of `H02` and `H02X`, `H02X` is gone, and the other columns are unchanged |
| Series.FoldDst | delmarva_load_profiles.py:135-138 | `df['H02'] += df['H02X']` followed by `del df['H02X']` (stated by `FoldDstSpec`) |
| Series.ConvertedColumn | delmarva_load_profiles.py:123-133 | each cell of the converted table is the conversion of the raw token at the same place |
| Series.ConvertedCells | delmarva_load_profiles.py:123-133 | before folding: segments, parsed dates and parsed hour values at their own places |
| Series.FoldedColumn | delmarva_load_profiles.py:135-138 | after folding, column 3 is the sum of raw columns 3 and 4 and each later column comes from one place further right |
| Series.FoldedCells | delmarva_load_profiles.py:135-138 | after folding, `H02` holds the sum of the two hour-2 tokens and the later hours are the tokens one place further right |
| Series.TableOfSucceeds | delmarva_load_profiles.py:123-133 | building the table succeeds exactly when every row has the schema's width and every token converts |
| Series.TableOf | delmarva_load_profiles.py:123-138 | the table built from the rows: `RaggedRows` for a row of another width, else the columns converted in `dtypes` order and, when folding, hour 2 folded (stated by `TableOfSucceeds`, `TableOfErrors`, `TableOfCells`) |
| Series.TableOfErrors | delmarva_load_profiles.py:123-133 | `RaggedRows` exactly when some row has another width; any other failure is a number or date parse error |
| Series.TableOfCells | delmarva_load_profiles.py:123-138 | the built table: its names, one row per text row, and the segment, date and hour cells taken from the tokens |
| Series.ParsedCells | delmarva_load_profiles.py:96-140 | a parsed day has a first row 26 or 27 wide, every row as wide, and one table row per row; it has 26 names unless it is an unfolded daylight-saving day; its cells come from the tokens |
| Series.ParseText | delmarva_load_profiles.py:96-140 | one day's parse: `NoValidData` without rows, `InvalidStructure` for a first row neither 26 nor 27 wide, else `TableOf` the rows (stated by `ParseTextSucceeds`, `ParseTextErrors`, `ParsedCells`) |
| Series.SeriesOf | delmarva_load_profiles.py:89-140 | `get_lp_series` after the fetch: a rejected LDC raises `InvalidLdc`, a missing file gives `None`, a fetched text gives its parse's error or table |
| Series.WarningOf | delmarva_load_profiles.py:89-108 | the warning printed: `NoData` for a missing file, `PartialData` when exactly one row survives, none otherwise |
| Series.LpSeries | delmarva_load_profiles.py:89-140 | `get_lp_series(dt, ldc, agg_dst_hr2)`: `SeriesOf` of `Retrieve` |
| Series.SeriesWarning | delmarva_load_profiles.py:89-108 | the warning `get_lp_series` prints: `WarningOf` of `Retrieve` |
| Series.ParseTextSucceeds | delmarva_load_profiles.py:96-140 | parsing succeeds exactly when a row survives, the first is 26 or 27 wide, all rows are as wide, and every token converts |
| Series.ParseTextErrors | delmarva_load_profiles.py:100-121 | `NoValidData` exactly when no row survives; `InvalidStructure` with the width exactly when the first row is neither 26 nor 27 wide; `RaggedRows` exactly for a later row of another width |
| Series.GetLpSeries | delmarva_load_profiles.py:89-140 | the method returns what `LpSeries` specifies (an error, `None` for a missing file, or a fresh frame holding the parsed table) and the warning `SeriesWarning` specifies |
| Series.ParseSeries | delmarva_load_profiles.py:96-140 | the method's frame or error is what `ParseText` specifies, and it warns exactly when one row survives |
| Series.BuildFrame | delmarva_load_profiles.py:123-138 | the method's fresh frame or error is what `TableOf` specifies |
| Series.ConvertColumns | delmarva_load_profiles.py:131-133 | the in-place loop leaves the frame as `ConvertAll` of its old contents, or reports its error |
| Series.FoldHour2 | delmarva_load_profiles.py:136-138 | in place, the frame becomes `FoldDst` of its old contents |
| Range.Requests | delmarva_load_profiles.py:151-153 | twice as many requests as days; entry `2i` is day `i` with `CND` and entry `2i+1` is day `i` with `CNM` |
| Range.RequestsCover | delmarva_load_profiles.py:151-153 | a pair is requested exactly when its day is listed and its LDC is accepted |
| Range.RangeRequested | delmarva_load_profiles.py:149-153 | over a date range, a (day, LDC) pair is requested exactly when the day lies between the bounds and the LDC is accepted |
| Range.FirstFailure | delmarva_load_profiles.py:151-153 | the position of the first request that raised: every earlier one returned |
| Range.Outcomes | delmarva_load_profiles.py:151-152 | `get_lp_series(dt, ldc)` of each request in turn, with `agg_dst_hr2` at its default `True` |
| Range.Collect | delmarva_load_profiles.py:151-153 | fails exactly when a request raised, with the first one's error; otherwise the gathered tables are exactly those returned, with `None` dropped (their order is stated by `CollectInOrder`) |
| Range.ReturnedFrom | delmarva_load_profiles.py:151-153 | the positions of the requests that returned a table: strictly increasing, and every such position included |
| Range.CollectFromOrder | delmarva_load_profiles.py:151-153 | what is gathered from any request position on is, one for one and in order, the tables of the returning requests from there |
| Range.CollectInOrder | delmarva_load_profiles.py:151-153 | the gathered tables are the returned ones in request order, none lost and none repeated: table `k` is what the `k`-th returning request returned |
| Range.CollectNone | delmarva_load_profiles.py:151-153 | requests that all return `None` gather no table |
| Range.SeriesShape | delmarva_load_profiles.py:136-138 | a day's table, with `agg_dst_hr2` left at `True`, has the normal day's 26 columns |
| Range.Stack | delmarva_load_profiles.py:151-153 | concatenating two tables keeps the columns, adds the heights and puts the second's rows below the first's |
| Range.Concat | delmarva_load_profiles.py:151-153 | `pd.concat` of tables with shared columns keeps the columns and sums the heights |
| Range.ConcatRows | delmarva_load_profiles.py:151-153 | row `i` of the `j`-th table is row `i` plus the heights of the tables before it |
| Range.ConcatHolds | delmarva_load_profiles.py:151-153 | every concatenated table appears whole, as consecutive rows of the result |
| Range.LpData | delmarva_load_profiles.py:142-153 | a successful `get_lp_data` is a well-formed table with the normal day's 26 columns |
| Range.LpDataErrors | delmarva_load_profiles.py:151-153 | `get_lp_data` fails with the first raising request's error; otherwise it fails exactly when every request returned `None`, as an empty range does |
| Range.LpDataHolds | delmarva_load_profiles.py:149-153 | every table a request in the range returns appears whole in the result |
| Range.LpDataTables | delmarva_load_profiles.py:151-153 | a successful result is the concatenation of the gathered tables, which are the returned tables in request order, and its height is the sum of theirs |
| Range.Earliest | delmarva_load_profiles.py:171 | `date.min()` is one of the dates and no date precedes it |
| Range.ExportName | delmarva_load_profiles.py:170-174 | a non-empty given name is used as is; otherwise the default, which fails only for an empty date column |
| Range.DefaultExportName | delmarva_load_profiles.py:173 | the default name is `Conectiv_`, the `YYYYMMDD` of the earliest date, then `.txt` |
| Range.DefaultName | delmarva_load_profiles.py:173 | `'Conectiv_{:%Y%m%d}.txt'` of a day: 21 characters |
| Range.DefaultExportNameInjective | delmarva_load_profiles.py:173 | two date columns get the same default name exactly when their earliest dates agree |

## Left out

- HTTP:
  - `requests.get` is the parameter `get`, which gives a status and a body for each URL.
  - `raise_for_status()` raises only for 4xx and 5xx statuses. After any other non-200 final status (a 1xx or 3xx that was not followed, or a 2xx other than 200) `_retrieve_raw_data` returns `None`. Then `data.replace` in `get_lp_series` raises `AttributeError`, which escapes, because only `HTTPError` is caught. The model treats every final non-200 status as "no data": a `None` result and the warning. For those statuses this differs from the code.
- The date-type check in `_retrieve_raw_data` that raises `TypeError` is not modelled: days are `Calendar.Day` values, which always have a year and a month.
- Days are limited to the years 1000 to 9999, so `%Y` is always four digits.
- The params are built once for both revisions before the loop rather than once per pass. Nothing observable depends on that.
- Printed text: the warnings are the values of `Series.Warning`, and the closing message of `export_for_oracle` is not modelled.
- Float and date conversion:
  - `astype('float')` is the parameter `num`, and `pd.to_datetime(..., format='%m/%d/%Y')` is the parameter `when`; `None` from either means the conversion raised.
  - Hour values are exact reals, so `H02 + H02X` has no rounding.
- Rows of another width: pandas pads shorter rows with missing values and raises for longer ones. The model gives `RaggedRows` for both.
- `get_lp_data` with string bounds: the parsing of the bounds by `pd.to_datetime` is not modelled; the bounds are days.
- `pd.concat`:
  - It raises for an empty list and for a list of only `None`; both are `NoObjectsToConcatenate`.
  - Only tables with identical columns are concatenated. Every table `get_lp_data` gathers has the 26 normal columns (`Range.SeriesShape`).
- Range.LpDataHolds: states only that every returned table appears whole in the result. The order of the tables and the absence of other rows are stated by `Range.LpDataTables` (with `Range.CollectInOrder` and `Range.ConcatRows`).
- Range.ExportName: takes the date column of `lp_data` as a sequence of days rather than reading it from the table.
- `export_for_oracle` beyond the file name:
  - the `dest_path` default;
  - the Archive existence check;
  - the right join with the codes table, the `EMPTY` column, the sorting, and `to_csv` with its formats.
- Loading the codes file in `__init__` (file-system work) is not modelled.
