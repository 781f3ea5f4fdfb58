# fit: a verified model of its data engine

`fit` keeps named datasets, each made of an ordered list of column names and
a row-major matrix of numbers, and answers queries over them. A query picks
columns out of several datasets and stacks them side by side. Short columns
are zero-filled. The result can be cut into windows by a duration grouping
and reduced window by window with `min`, `max`, `sum` or an average. Around
that core sit a running-total aggregator, calendar rollups of rows and of
activities, readers that turn rows into matrices, CSV value dispatch,
parser options, and file-type and name derivation from a path.

This project models that engine in Dafny and proves what each part
promises. The repository holds several versions of the engine side by
side, and each is modelled on its own:

| Dafny file | module | Go source |
|---|---|---|
| clients.dfy | `Clients` | clients/bolt.go: the Bolt store and its cached multi-dataset `Query` |
| database.dfy | `Database` | store/database.go: the older store, `QueryFromArgs`, `Read`, the uncached `Query` |
| stack.dfy | `Stack` | the column picking and zero-filled stacking both `Query` versions share |
| types.dfy | `Types` | types/types.go: `Dataset.Len`/`CPos`/`Next`, the older `Query` and `NewQuery` |
| typesquery.dfy | `TypesQuery` | types/query.go: selectors, `NewQuery`, `Columns`, `Apply`, the `q` value |
| grouping.dfy | `Grouping` | types/grouping.go: `Group`, `NewGrouping`, `String` |
| typesfunction.dfy | `TypesFunction` | types/functions.go: `Function.apply` and `Apply` |
| functions.dfy | `Functions` | functions/functions.go: `Aggregate`, `apply`, `Avg` |
| models.dfy | `Models` | models/models.go: `Rows.RollUp`, `Less`, `Swap`, `Datapoints` |
| activities.dfy | `Activities` | models.go: `TimeKey`, `RollUpActivities`, `ActivityByDist`, `Less`, `Swap` |
| buckets.dfy | `Buckets` | the bucketing both rollups share: keys in order of first appearance, positions, sums over buckets |
| storetypes.dfy | `StoreTypes` | store/types.go: `CPos` and the `Reader` interface |
| storematrix.dfy | `StoreMatrix` | store/matrix.go: `ReadMatrix` |
| memreader.dfy | `MemReader` | loader/memory.go: `MemReader` |
| loader.dfy | `Loader` | loader/loader.go: `Load`, `ReadPath` |
| csvrecords.dfy | `CsvRecords` | the record reader and per-field dispatch of both CSV loaders |
| csvloader.dfy | `CsvLoader` | loader/csv/csv.go: `CSV.Next`, `New` |
| csvreader.dfy | `CsvReader` | loader/csv.go: `CSVReader.Next`, `NewCSV` |
| parser.dfy | `Parser` | parser/parser.go: `ParsersFromArgs`, `TimeParser.Parse` |
| loaders.dfy | `Loaders` | loaders/loader.go: `FileTypeByName`, the defaulting in `Load` |
| base.dfy, gostrings.dfy, mat.dfy, reduce.dfy | `Base`, `GoStrings`, `Mat`, `Reduce` | errors and results, Go's 64-bit durations, `strings.Split`/`Join`/`TrimRight`/`ToLower`, gonum's dense matrix operations, and the four column reductions |

Modelling choices:

- Matrix cells are `real`.
- Timestamps are integer Unix seconds.
- A `time.Time` is the fields the engine reads of it: year, month, day and Unix seconds.
- Durations are Go's 64-bit nanosecond counts, with wrap-around on `+=` and saturation on `Sub` written out.
- Go library parsers and formatters are function-valued parameters, bundled in `Base.Codecs`: `strconv.ParseInt`, `strconv.ParseFloat`, `time.ParseDuration`, `Duration.String`, `time.Parse`.
- Each Bolt store is a pair of maps, one per bucket. In store/database.go either bucket may be absent, so there each map is optional.
- A reader is described by the sequence of replies its `Next` calls give. Once the replies are used up it answers end of input.
- Go panics become preconditions, or error values where the caller can observe them.
- Where the code computes a wrong answer (see "## Findings"), the operation is modelled as written, and a corrected version stands beside it with the intended property proved. `Functions.Aggregate`, `Models.RollUp` and `Activities.RollUpActivities` keep the code's behaviour, day keys included; `Functions.AggregateCorrected`, `Models.FixedKey` and `Activities.FixedTimeKey` are the corrected versions.

## Model

| member | source | states |
|---|---|---|
| Buckets.Distinct | models/models.go:71-77 | the keys in order of first appearance: the same keys as the input, each once |
| Buckets.FirstIndex | models/models.go:78 | the first position of a key: it holds the key and no earlier position does |
| Buckets.Positions | models/models.go:71-75 | the positions holding a key, in increasing order |
| Buckets.PositionsComplete | models/models.go:71-75 | every position holding the key is listed: a bucket receives every row with its key |
| Buckets.PositionsFirst | models/models.go:78 | a bucket's first entry is the first position of its key |
| Buckets.WherePositions | models/models.go:77-86 | the weight of the rows with a key is the sum over that key's bucket |
| Buckets.GatheredSnoc | models/models.go:71-75 | one more row adds its weight to its own key's bucket sum and to no other |
| Buckets.OverTotal | models/models.go:77-89 | summing over a list of keys is the sum of the per-key sums |
| Buckets.WhereAbsent | models/models.go:71-75 | a key no row has weighs nothing |
| Buckets.OverAppend | models/models.go:71-75 | one more row adds its weight to the sum over distinct keys exactly when its key is among them |
| Buckets.PartitionSum | models/models.go:71-89 | the buckets partition the rows: summing every bucket's weight gives the total weight |
| Buckets.Pick | models/models.go:74 | the items at the listed positions, in order: a bucket's rows, or their weights |
| Buckets.DistinctSnoc | models/models.go:71-73 | one more row adds its key to the order only when it is new |
| Buckets.PositionsSnoc | models/models.go:74 | one more row is appended to its own key's positions only |
| Buckets.PositionsAbsent | models/models.go:71-73 | a key no row has has no positions |
| Buckets.BucketedStep | models/models.go:71-75 | one pass of the bucket loop keeps "each key seen so far has its bucket: the rows with that key in input order, keys in order of first appearance" |
| Buckets.KeysStep | models/models.go:71-73 | the keys of the bucket map stay those of the order list |
| Buckets.BucketsStep | models/models.go:74 | every bucket stays the rows seen so far with its key |
| Buckets.PickSnoc | models/models.go:74 | appending a position appends that item |
| Base.Add64 | types/grouping.go:61 | `duration += ...` on a 64-bit `time.Duration`: the exact sum when it fits, otherwise the sum wrapped by 2^64 in either direction |
| Base.Saturate64 | types/grouping.go:61 | `current.Sub(previous)` saturates: values inside the int64 range are kept, values above become the maximum and values below the minimum duration |
| GoStrings.IndexOf | types/query.go:92 | where `strings.Split` cuts: the first index holding the separator, or -1 exactly when the character does not occur; no earlier position holds it |
| GoStrings.Join | types/query.go:61 | `strings.Join` with a one-character separator; `JoinSnoc`, `JoinEnds` and `SplitJoin` state what it builds |
| GoStrings.Split | types/query.go:92 | `strings.Split`: at least one piece, no piece contains the separator, and the pieces joined with the separator give back the input |
| GoStrings.SplitFirst | store/database.go:29-32 | the first piece of a split is a prefix of the input |
| GoStrings.JoinSnoc | types/query.go:61 | joining one more part appends the separator and that part (no separator before the first part) |
| GoStrings.LastPiece | loader/loader.go:80-81 | the last `/`-separated piece never contains the separator |
| GoStrings.JoinEnds | loader/loader.go:80-81 | the last part of a join is a suffix of the joined string, preceded by the separator when there is more than one part |
| GoStrings.LastPieceSuffix | loader/loader.go:80-81 | the last piece is a suffix of the input, and is preceded by the separator when it is shorter than the input |
| GoStrings.LastPieceAfter | loaders/loader.go:58-59 | the last piece of `a + sep + b` is `b` when `b` has no separator |
| GoStrings.IndexOfAfterPrefix | types/query.go:92 | in `a + c + b` with `c` not in `a`, the first `c` is at `|a|` |
| GoStrings.SplitCons | store/database.go:29 | splitting `a + sep + b` with no separator in `a` gives `a` followed by the pieces of `b` |
| GoStrings.SplitJoinStep | types/query.go:61-92 | the split-after-join round trip extends by one leading part |
| GoStrings.SplitJoin | types/query.go:61-92 | splitting the join of separator-free parts gives back exactly those parts |
| GoStrings.TrimRight | types/query.go:61 | `strings.TrimRight` with one character: the result is a prefix of the input, does not end with the character, and only that character was removed |
| GoStrings.TrimRightNoTrailing | types/query.go:61 | a string that does not end with the character is left unchanged |
| GoStrings.ToLower | types/functions.go:33 | `strings.ToLower` on ASCII: same length, every character lowered one by one |
| GoStrings.ToLowerKeepsLower | types/functions.go:33-39 | a name without upper-case letters is its own lower case, so `min`, `max`, `sum` match themselves |
| GoStrings.NatToDecimal | types/grouping.go:46 | the `%d` rendering of a natural number: non-empty digits, no leading zero, and the number they spell is the input |
| GoStrings.Itoa | types/grouping.go:46 | the `%d` rendering of an integer: digits that spell it, after a minus sign exactly for a negative one |
| Mat.SameEntries | store/matrix.go:29-34 | two matrices with the same dimensions and the same entry at every (i,j) are equal |
| Mat.Zeros | types/functions.go:20 | `mtx.NewDense(r, c, nil)`: r rows of c columns, every entry 0 |
| Mat.Set | types/functions.go:26 | `Set(i, j, v)`: same dimensions, entry (i,j) becomes v, every other entry is unchanged |
| Mat.Column | types/functions.go:26 | `ColView(j)`: one value per row, value i is entry (i,j) |
| Mat.RowsView | types/grouping.go:59 | `View(i, 0, j, c)`: the rows i to i+j-1, all columns |
| Mat.GrowRow | functions/functions.go:34 | a matrix grown by one row keeps its rows and gets a zero row at the end |
| Mat.SetRow | functions/functions.go:35 | `SetRow(i, row)`: row i replaced, every other row unchanged |
| Mat.FromFlat | store/matrix.go:34 | `mtx.NewDense(r, c, data)` from r*c row-major values has r rows and c columns |
| Mat.FlattenAppend | store/matrix.go:29-31 | flattening one more row appends that row's values |
| Mat.FromFlatten | store/matrix.go:29-34 | rows of width c flattened and rebuilt with `NewDense` give back the same rows: the data is row-major |
| Reduce.TotalAppend | types/functions.go:38-39 | the sum of a concatenation is the sum of the sums |
| Reduce.TotalCons | types/functions.go:38-39 | the sum of `[x] + p` is x plus the sum of p |
| Reduce.Least | types/functions.go:34-35 | `mtx.Min` of a non-empty column: a value of the column no greater than any other |
| Reduce.Greatest | types/functions.go:36-37 | `mtx.Max` of a non-empty column: a value of the column no smaller than any other |
| Reduce.Mean | types/functions.go:40-45 | the average times the row count is the column sum |
| Reduce.ReducerExample | types/functions.go:32-46 | on six values the average is 1.5, the minimum 1.0 and the maximum 2.0 |
| Grouping.Trunc | types/grouping.go:60 | `int64(x)` truncates toward zero: within one below a non-negative value, within one above a negative one |
| Grouping.ClocksTo | types/grouping.go:58-60 | one clock reading per scanned row |
| Grouping.Clocks | types/grouping.go:58-60 | one clock reading per row of the matrix, taken from column `Index` |
| Grouping.ClockAt | types/grouping.go:59-60 | reading k is the clock of row k's `Index` column |
| Grouping.Scan | types/grouping.go:58-68 | the scan from row k yields a chain of increasing window ends, each past the previous one and within the row count |
| Grouping.Ends | types/grouping.go:58-68 | the window ends of the whole scan form such a chain from row 0 |
| Grouping.WindowsFrom | types/grouping.go:59-63 | one view per window end; every view is non-empty and has every column |
| Grouping.WindowAt | types/grouping.go:58-68 | window w is exactly the rows from the previous end (or the start) up to its own end: contiguous, non-overlapping, in row order |
| Grouping.Group | types/grouping.go:49-70 | `Group` returns exactly the windows of the specification scan over the clock column |
| Grouping.LastClock | types/grouping.go:60 | the clock of a view's last row is the clock of the matrix row it shows |
| Grouping.Advance | types/grouping.go:58-68 | one pass of the loop keeps "emitted views followed by the rest of the scan equal all windows" |
| Grouping.NewGrouping | types/grouping.go:77-94 | `Name` is the first comma field; `Index` is the parsed second field or 0; `Max` is the parsed third field or 0 |
| Grouping.String | types/grouping.go:45-47 | the text form is name, decimal index and formatted duration joined by commas |
| Grouping.ClosesCons | types/grouping.go:61-66 | a window closing at row k followed by windows that close correctly from row k+1 close correctly |
| Grouping.ScanCloses | types/grouping.go:58-68 | each emitted window closes at the first row where the accumulated duration reaches `Max`, the accumulator restarting at 0 while `previous` carries over; rows after the last closed window are not emitted |
| Grouping.GroupCloses | types/grouping.go:58-68 | the windows of `Group` close exactly as described above |
| Grouping.ClosesUnique | types/grouping.go:58-68 | that closing rule determines the windows: two window lists that both satisfy it are equal |
| Grouping.GroupWindows | types/grouping.go:58-68 | every window of `Group` is a non-empty block of consecutive rows starting where the previous one ended |
| Grouping.FirstRowAlone | types/grouping.go:52-66 | the first step measures from the zero time, so the first window is the first row alone |
| Grouping.TenRowsByTwoSeconds | types/grouping.go:58-68 | ten rows one second apart with a 2s maximum give 5 windows, ending at rows 1, 3, 5, 7, 9 |
| Grouping.StringRoundTrip | types/grouping.go:45-94 | parsing the text form of a grouping gives back the grouping, when the name has no comma and the codecs round-trip |
| Grouping.ParseFields | types/grouping.go:77-94 | `a,b,d` parses to name a, index parsed from b and duration parsed from d |
| Grouping.DurationExample | types/grouping.go:77-94 | `Duration,0,2s` parses to name `Duration`, index 0 and 2 seconds |
| Grouping.DurationString | types/grouping.go:45-47 | that grouping renders as `Duration,0,2s` |
| TypesFunction.Reduced | types/functions.go:12-30 | one output row per window, the column count of the first window, entry (i,j) the reduction of column j of window i |
| TypesFunction.ApplyEach | types/functions.go:12-30 | `apply` returns nil for no windows and otherwise the reduced matrix above |
| TypesFunction.ToLowerTwice | types/functions.go:33 | lowering case twice is lowering it once |
| TypesFunction.Choose | types/functions.go:32-46 | the reduction a name selects after lower-casing, the average by default; `ChooseIgnoresCase` states it |
| TypesFunction.ChooseIgnoresCase | types/functions.go:33-46 | the reduction depends only on the lower-cased name: sum, min or max exactly when it is `sum`, `min` or `max`, average otherwise |
| TypesFunction.Applied | types/functions.go:32-49 | with no windows: nil for sum/min/max and a 0×0 matrix for average; otherwise the reduced matrix for the chosen reduction |
| TypesFunction.Apply | types/functions.go:32-49 | `Apply` returns exactly the result described by `Applied` |
| TypesFunction.AverageIsSumOverRows | types/functions.go:42-45 | the average of a column times the window's row count is the column sum |
| Functions.Row | functions/functions.go:50-58 | `apply`: one value per column of the view, value j being `fn` of column j |
| Functions.Apply | functions/functions.go:50-58 | the loop of `apply` computes exactly that row |
| Functions.Avg | functions/functions.go:13-16 | the average of a view times its row count is the sum of all its values |
| Functions.ColumnMatrix | functions/functions.go:13-16 | a column vector seen as an n×1 matrix holds value i in row i |
| Functions.AvgOfColumn | functions/functions.go:13-16 | `Avg` of a column vector is the mean of its values |
| Functions.FlattenColumn | functions/functions.go:13-16 | the values of an n×1 matrix, row by row, are the column |
| Functions.Run | functions/functions.go:31-46 | the passes of `Aggregate`'s loop as written, from a state to the end or to the first out-of-range write; `Step` states what each pass does |
| Functions.AsWritten | functions/functions.go:23-48 | `Aggregate` as written: the input when `max` exceeds the column total, else `Run` from an empty result; `AsWrittenOverwrites`, `AsWrittenRepeatsLast`, `AsWrittenPanics` and `OnesAsIntended` state what it returns |
| Functions.Finish | functions/functions.go:41-45 | the final-iteration step keeps the result's width |
| Functions.Step | functions/functions.go:32-45 | one pass of the loop as written moves `i + j` on by exactly one and keeps the result's width |
| Functions.Pass | functions/functions.go:32-45 | the loop body computes exactly `Step`, including the out-of-range row index `i/j` as an error |
| Functions.Aggregate | functions/functions.go:23-48 | `Aggregate` as written returns exactly `AsWritten`: the input when `max` exceeds the column sum, otherwise the result of the loop with its `i/j` row index and its unconditional final row |
| Functions.Scan | functions/functions.go:31-45 | the windows of the running-total rule; `ScanTiles` and `ScanCloses` state them |
| Functions.Aggregated | functions/functions.go:23-48 | `Aggregate` as intended: as wide as the input; `AggregatedRows` and `AggregatedSum` state its rows |
| Functions.TilesInRange | functions/functions.go:31-45 | windows that tile a range of rows stay inside it |
| Functions.ScanTiles | functions/functions.go:31-45 | the intended windows are non-empty, consecutive and cover every row from the start to the last |
| Functions.RunningSnoc | functions/functions.go:33-39 | the running total over one more row adds that row's value |
| Functions.ClosingCons | functions/functions.go:33-40 | a window that stays below `max` until its last row and reaches it there, followed by correctly closing windows, closes correctly |
| Functions.ScanCloses | functions/functions.go:31-45 | every intended window but the last closes at the first row where the running total reaches `max`, the total restarting at 0; the last window is either closed that way or the leftover rows |
| Functions.Rows | functions/functions.go:34-35 | one row per window, row k being `apply` of window k's view |
| Functions.AggregatedRows | functions/functions.go:23-48 | when `max` is within the column sum, the intended result is one row per window of the running-total rule, and the windows tile the matrix |
| Functions.RowsSnoc | functions/functions.go:34-35 | one more window grows the result by one row holding that window's reduction |
| Functions.Advance | functions/functions.go:31-45 | one pass of the loop keeps "windows done followed by the rest of the scan equal all windows" |
| Functions.AggregateCorrected | functions/functions.go:23-48 | the corrected loop (row `r-1` instead of `i/j`, the final row only for a window still open) returns exactly `Aggregated` |
| Functions.Parts | functions/functions.go:33-39 | one running total per window |
| Functions.PartsCons | functions/functions.go:33-39 | the per-window totals of a list of windows are the first window's total followed by the rest |
| Functions.RunningSplit | functions/functions.go:33-39 | a running total over `a + b` rows is the total over the first `a` plus the total over the next `b` |
| Functions.TilesTotal | functions/functions.go:31-45 | the per-window totals of windows that tile a range add up to the total of the range |
| Functions.ColumnOfView | functions/functions.go:32 | column j of a view is the matching slice of column j of the matrix |
| Functions.SumRow | functions/functions.go:10-35 | with `Sum`, entry j of a window's row is the window's total in column j |
| Functions.SumColumn | functions/functions.go:10-35 | with `Sum`, column j of the intended result lists the windows' totals of column j |
| Functions.AggregatedSum | functions/functions.go:23-48 | with `Sum`, every column of the intended result adds up to the same column of the input: no row is lost or counted twice |
| Functions.GrowOne | functions/functions.go:34 | growing an n×1 matrix appends a zero row |
| Functions.AsWrittenOverwrites | functions/functions.go:35 | as written, `Max` with `max` 3 over rows 3, 1, 2 gives rows 2, 0, 2: the second window's row lands at `i/j` = 0 over the first, row 1 stays zero and the final step repeats the second window's row; the intended result is rows 3, 2 |
| Functions.OverwritesRun | functions/functions.go:31-46 | the as-written loop over rows 3, 1, 2 ends with rows 2, 0, 2 |
| Functions.OverwritesClose | functions/functions.go:33-37 | the pass that closes the second window writes at row `i/j` = 0, over the first window's row |
| Functions.OverwritesRows | functions/functions.go:23-48 | the intended result over rows 3, 1, 2 with `max` 3 is rows 3, 2 |
| Functions.AsWrittenRepeatsLast | functions/functions.go:41-45 | as written, `Sum` with `max` 1 over rows 1, 1 gives three rows, the last window written twice, while the intended result has two |
| Functions.OneView | functions/functions.go:32-58 | a one-row view of the 2×1 matrix of ones reduces to the row [1] |
| Functions.RepeatsLastRows | functions/functions.go:23-48 | the intended result over rows 1, 1 with `max` 1 is two rows of 1 |
| Functions.RepeatsLastRun | functions/functions.go:31-46 | the as-written loop over rows 1, 1 ends with three rows of 1 |
| Functions.AsWrittenPanics | functions/functions.go:35 | as written, `Sum` with `max` 2 over rows 1, 1, 2 writes at a row index past the grown result: the Go code panics |
| Functions.OnesClose | functions/functions.go:33-40 | on a column of ones, the pass that closes a window of `max` rows before the last row writes its row at `i/max`, the new bottom row |
| Functions.OnesLast | functions/functions.go:41-45 | on a column of ones, a window still open at the last row gets its row from the final step |
| Functions.OnesGrow | functions/functions.go:38-39 | on a column of ones, a window below `max` before the last row takes one more row |
| Functions.RunOnes | functions/functions.go:31-46 | on a column of ones with a row count that is not a multiple of `max`, the loop as written ends with the rows of the intended windows |
| Functions.RunOnesClose | functions/functions.go:33-40 | the same, from a pass that closes a window |
| Functions.RunOnesLast | functions/functions.go:41-45 | the same, from the last row with the window open |
| Functions.RunOnesGrow | functions/functions.go:38-39 | the same, from a pass that grows the window |
| Functions.OnesAsIntended | types/functions_test.go:23-33 | on a column of ones, with a whole `max` of at least 1 and a row count that is not a multiple of it (10 rows by 3, 54391 by 7), `Aggregate` as written returns exactly the intended result |
| Functions.OnesKeepTotals | types/functions_test.go:23-33 | on such a column of ones, `Aggregate` as written with the sum keeps the width and every column total (100 for the 10×10 ones, 543910 for the 54391×10 ones) |
| Models.Key | models/models.go:61-70 | the bucket key as written: the year by year; by month a count of months from which year and month read back; `year*12 + month*31 + day` by day; 0 at any other precision |
| Models.MonthKeySeparates | models/models.go:66-67 | by month, two times share a key exactly when they share year and month |
| Models.DayKeyCollides | models/models.go:68-69 | as written, 13 January 2000 and 1 January 2001 share the day key 24044, so they fall into one bucket |
| Models.DayKeySeparates | models/models.go:68-69 | the corrected day key is shared exactly by times of the same year, month and day |
| Models.DayKey | models/models.go:68-69 | the intended day key: a count of days, 31 to a month, from which year, month and day read back |
| Models.KeySeparates | models/models.go:61-70 | the keys `Rows.RollUp` computes group exactly the rows of one year, and exactly the rows of one month; by day, rows of one date share a key but rows of different dates can too (`DayKeyCollides`); any other precision gives every row key 0 |
| Models.FixedKey | models/models.go:61-70 | the key with the intended day key: the written key by year and by month, `DayKey` by day |
| Models.FixedKeySeparates | models/models.go:61-70 | the intended keys group exactly the rows of one year, one month or one date; any other precision gives key 0 |
| Models.FixedKeys | models/models.go:60-70 | the intended key of each row |
| Models.FixedRollUpDays | models/models.go:60-89 | with the intended keys, by day, two rows end up in the same output row exactly when they fall on the same date |
| Models.Keys | models/models.go:60-70 | one bucket key per row, the key as written (`Key`) of its time |
| Models.Snapshot | models/models.go:37-40 | the values of each row, in row order |
| Models.Padded | models/models.go:82-83 | value i of every row, 0 where a row is shorter |
| Models.BucketRow | models/models.go:77-87 | a bucket's merged values are as long as its first row's |
| Models.RolledUp | models/models.go:71-89 | one merged row per distinct key |
| Models.RolledUpTotals | models/models.go:71-89 | rolling up keeps every column total: the sum of value i over the output equals the sum over the input |
| Models.AddInto | models/models.go:82-84 | `first.Values[i] += value` for each value of a later row: entry i gains the other row's value i, entries past its length are unchanged |
| Models.PaddedSnoc | models/models.go:82-83 | value i of one more row is appended, 0 if that row is shorter |
| Models.Added | models/models.go:81-84 | a row with the later rows of its bucket added in keeps its length |
| Models.MergeBucket | models/models.go:79-86 | the merge loop of one bucket leaves the first row's values equal to its old values plus every later row's values, entry by entry |
| Models.PaddedTotalSnoc | models/models.go:82-83 | one more row adds its entry i, or 0, to the total of entries i |
| Models.AddedNothing | models/models.go:79 | a bucket of one row is left as it is |
| Models.MergedStep | models/models.go:77-88 | merging one more bucket keeps the invariant: merged buckets hold their sums in their first rows, all other rows unchanged |
| Models.Unmerged | models/models.go:77-88 | under that invariant, a bucket not yet merged and every non-first row still hold their input values |
| Models.MergedAll | models/models.go:77-89 | once every bucket is merged, each bucket's first row holds the rolled-up values and every other row is unchanged |
| Models.Rest | models/models.go:80 | `bucket[1:]`: the later rows of a bucket |
| Models.BucketMerge | models/models.go:77-87 | adding the later rows into the first gives the bucket's element-wise sum |
| Models.BucketEntry | models/models.go:82-83 | entry i of that sum is the sum of value i over the bucket |
| Models.BucketApart | models/models.go:78-84 | distinct rows that fit their bucket's first row give a first row whose values array no later row shares |
| Models.RollStep | models/models.go:77-88 | adding the later rows of a bucket into its first row is one step of the merge invariant |
| Models.RestValues | models/models.go:80-83 | the values of `bucket[1:]` are the values of the bucket's later rows |
| Models.Bucket | models/models.go:60-75 | the bucket loop, with the key as written: the keys in order of first appearance, each bucket the rows with that key in input order |
| Models.Roll | models/models.go:78-87 | merging one bucket returns its first row and advances the merge invariant |
| Models.MergeFirst | models/models.go:78-86 | only the bucket's first row changes, to its old values plus those of the later rows |
| Models.Firsts | models/models.go:87 | one first row per key |
| Models.FirstsSnoc | models/models.go:87 | one more key appends that key's first row |
| Models.MergeAll | models/models.go:76-89 | the merge loop returns the first row of each bucket, in key order; each now holds its bucket's sum and every other row is unchanged |
| Models.RollUp | models/models.go:56-90 | `None` returns the rows untouched; otherwise, with the key as written, one output row per distinct key, the bucket's first input row (same `Time`), its values the element-wise sum over the bucket, written in place; later rows keep their values |
| Models.Less | models/models.go:48-50 | `Rows.Less`: the earlier Unix second first; `LessOrders` states its order properties |
| Models.LessOrders | models/models.go:48-50 | `Less` on Unix seconds is irreflexive, transitive, and its incomparability is transitive: a strict weak order for `sort.Sort` |
| Models.Swap | models/models.go:52-54 | `Swap` exchanges exactly positions i and j; the rows are a permutation of the old ones |
| Models.Value | models/models.go:27-29 | `Datapoints.Value(i)`: the Y of point i; `XY` ties it to the point |
| Models.XY | models/models.go:27-33 | `XY(i)` is the point's X and Y, and Y is `Value(i)` |
| Activities.TimeKeyCollides | models.go:85-86 | as written, 13 January 2000 and 1 January 2001 share the "day" key 24044 |
| Activities.FixedTimeKey | models.go:78-89 | the key with the intended day key: the intended key of `Rows.RollUp` at each precision, 0 for any other string |
| Activities.FixedTimeKeySeparates | models.go:85-86 | by day, the intended key puts two activities in one bucket exactly when they start on the same date |
| Activities.TimeKey | models.go:78-89 | `TimeKey`: for "year", "month" and "day" exactly the key `Rows.RollUp` computes at that precision, day key as written; 0 for any other string |
| Activities.Keys | models.go:53-54 | the key as written (`TimeKey`) of each activity's start time |
| Activities.Distance | models.go:40-42 | the laps' distances added up in order: never negative when no lap is |
| Activities.Weight | models.go:40-67 | a lap measure: by distance it is the sum of lap distances |
| Activities.WeightCounts | models.go:66-67 | counting laps gives the number of laps |
| Activities.WeightAppend | models.go:66-67 | the measure of appended laps is the sum of the measures |
| Activities.Concat | models.go:65-68 | no activities have no laps |
| Activities.ConcatWeight | models.go:65-68 | the measure of all laps of some activities is the sum of their measures |
| Activities.Merge | models.go:62-69 | a merged bucket keeps its first activity's start time and first laps |
| Activities.MergeWeight | models.go:62-69 | a merged activity's laps measure the sum over its bucket |
| Activities.Merges | models.go:60-72 | one merged activity per key |
| Activities.MergesSnoc | models.go:60-72 | one more key appends the merge of that key's bucket |
| Activities.RolledUp | models.go:48-72 | what `RollUpActivities` returns before its sort: the activities for "none", else one merged activity per distinct key; `RolledUpDistinct`, `RolledUpCovers`, `RolledUpStarts` and `RolledUpWeight` state its properties |
| Activities.RolledUpDistinct | models.go:52-72 | one output activity per distinct key, in order of first appearance, no two with the same key |
| Activities.RolledUpCovers | models.go:52-72 | every input activity's key has an output activity |
| Activities.RolledUpStarts | models.go:62-71 | each output activity starts when the first input activity with its key starts |
| Activities.Starts | models.go:62-71 | output n starts at the start of the first activity of the n-th distinct key |
| Activities.RolledUpWeight | models.go:48-75 | rolling up keeps the laps: their count and their total distance, "none" included |
| Activities.BucketWeight | models.go:61-69 | a merged bucket's laps measure the sum over the activities with that key |
| Activities.LapsKept | models.go:48-75 | the output holds as many laps, and as much distance, as the input |
| Activities.MergeBucket | models.go:62-70 | the lap-appending loop computes exactly `Merge` of the bucket: the first activity with the laps of the later ones appended in order |
| Activities.Bucket | models.go:52-59 | the bucket loop, with the key as written: keys in order of first appearance, each bucket the activities with that key in input order |
| Activities.RollUpActivities | models.go:48-75 | "none" returns the activities unchanged; otherwise, with the key as written, exactly `RolledUp`: one merged activity per key |
| Activities.ActivityByDist | models.go:36-46 | a new array of one point per activity, in order: X the start in Unix seconds, Y the sum of lap distances |
| Activities.Less | models.go:20-22 | `Datapoints.Less`: the smaller X first; `LessOrders` states its order properties |
| Activities.LessOrders | models.go:20-22 | `Less` on X is a strict weak order |
| Activities.Swap | models.go:24-26 | `Swap` exchanges exactly two positions; the points are a permutation of the old ones |
| StoreTypes.CPos | store/types.go:13-20 | within [-1, number of columns); -1 exactly when no column has the name; otherwise the column at the result has the name and no earlier one does |
| StoreTypes.Reader.constructor | store/types.go:22-28 | a reader with its columns and replies, before its first `Next` |
| StoreTypes.Reader.Next | store/types.go:25 | each call returns the next reply and consumes it; after the last, end of input |
| StoreMatrix.Collect | store/matrix.go:18-33 | the rows read up to end of input all have the column count; a row of another width ends the read with `ErrUnequalValues`, any other error is returned unchanged |
| StoreMatrix.ThenNothing | store/matrix.go:18-33 | no rows read yet and then the rest is just the rest |
| StoreMatrix.ThenRow | store/matrix.go:29-32 | reading one full-width row moves it from what is to come into what was read |
| StoreMatrix.ReadMatrix | store/matrix.go:11-35 | the loop returns an r×c matrix of the rows read before end of input, row-major, c being the number of columns, or the first error `Collect` meets |
| MemReader.Replies | loader/memory.go:15-22 | a memory reader answers each stored row in turn |
| MemReader.MemReader.constructor | loader/memory.go:24-29 | `NewMemReader` keeps the columns and values and starts at count 0 |
| MemReader.MemReader.Columns | loader/memory.go:11 | `Columns` returns the stored columns |
| MemReader.MemReader.Close | loader/memory.go:13 | `Close` returns no error |
| MemReader.MemReader.Next | loader/memory.go:15-22 | below the row count, the row at `count` and `count` goes up by one; from there on EOF every time, `count` unchanged |
| MemReader.CollectFrom | loader/memory.go:15-22 | reading a memory reader from row k to the end gives the rows from k on |
| MemReader.ReadAllRows | store/matrix.go:11-35 | `ReadMatrix` over a memory reader of rows of the column count gives back exactly those rows |
| MemReader.TwoByTwo | store/matrix.go:29-31 | the rows [1, 2] and [3, 4] read back as the 2×2 matrix 1, 2 / 3, 4 |
| Loader.Invalid | loader/loader.go:32-43 | the filter `ReadPath` loads with; on reals it keeps every value (see "## Left out") |
| Loader.Loaded | loader/loader.go:51-72 | the result of `Load` for the rows a loader yields; `LoadedCells` states its cells |
| Loader.FilterRow | loader/loader.go:66-68 | the filter applied to every value of a row, in order |
| Loader.Filtered | loader/loader.go:66-68 | one filtered row per row read |
| Loader.LoadedCells | loader/loader.go:51-72 | a read error is returned as it is; otherwise an r×c matrix whose cell (i,j) is the filter of value j of row i |
| Loader.FilteredSnoc | loader/loader.go:66-69 | one more row read appends its filtered row |
| Loader.FilteredAt | loader/loader.go:66-68 | filtered row i is row i filtered |
| Loader.FilteredWidth | loader/loader.go:63-68 | filtering keeps every row's width |
| Loader.FilterRowStep | loader/loader.go:66-68 | the filtered prefix of a row grows by the filter of the next value |
| Loader.AppendFiltered | loader/loader.go:66-68 | the inner loop appends the filtered values of the row, in order |
| Loader.LoadedMatrix | loader/loader.go:66-71 | the flat value list built row by row has r*c entries and `NewDense` over it gives the filtered rows back |
| Loader.Load | loader/loader.go:51-72 | `Load` returns exactly `Loaded` of what the loader yields: each row's values filtered, rows counted up to EOF, `ErrUnequalValues` at a row of another width, any other error propagated |
| Loader.DatasetName | loader/loader.go:79-82 | the given name, or else the last `/`-separated segment of the path: a suffix of the path without `/`, preceded by `/` when shorter than the path |
| Loader.EncodingOf | loader/loader.go:83-89 | a given encoding is kept; with `NONE`, CSV exactly when the last `.`-segment is `csv`, `NONE` otherwise |
| Loader.ReadPath | loader/loader.go:74-113 | an open error is returned; an encoding other than CSV fails (the source panics); a header error of the CSV loader is returned; otherwise the load error, or a dataset with the given or derived name, the loader's columns and the loaded matrix |
| Loaders.FileTypeByName | loaders/loader.go:23-31 | `csv` gives CSV, `tcx` gives TCX, every other name None |
| Loaders.TypeOfPath | loaders/loader.go:52-55 | the file type of the text after the last `.` of the path |
| Loaders.NameOfPath | loaders/loader.go:57-61 | the part before the first `.` of the last `/` segment: no `/` or `.` in it, and a prefix of that segment |
| Loaders.PathType | loaders/loader.go:52-55 | a path ending in `.ext` has the file type of `ext` |
| Loaders.PathName | loaders/loader.go:57-61 | the name of `dir/.../base.ext` is `base` |
| Loaders.Options.constructor | loaders/loader.go:35-42 | options with the given name, path and type |
| Loaders.Load | loaders/loader.go:50-79 | a missing type is set from the path and a missing name from the last segment; an open error is returned; CSV ends with what the CSV loader reports; every other type ends in `ErrUnknownFileType` |
| CsvRecords.ReadAt | loader/csv/csv.go:18 | `csv.Reader.Read`: a record has the reader's field count, which the first record fixes; past the last record, end of input |
| CsvRecords.RecordReader.constructor | loader/csv/csv.go:41 | `csv.NewReader`: a reader at its first record, field count not yet fixed |
| CsvRecords.RecordReader.Read | loader/csv/csv.go:18-47 | each call returns the next record (or its error) and moves past it |
| CsvRecords.FieldValue | loader/csv/csv.go:22-32 | a field's value: the parser's for that index when one exists and succeeds, else the float parse when it succeeds, else 0 |
| CsvRecords.Fill | loader/csv/csv.go:17-32 | the values are as many as the columns: field i gives `FieldValue`, positions past the record stay 0 |
| CsvRecords.CopyNames | loader/csv/csv.go:51-54 | the copied header is the header record, in order |
| CsvLoader.Csv.constructor | loader/csv/csv.go:39-42 | a loader over a record reader with its parsers, no columns yet |
| CsvLoader.Csv.Next | loader/csv/csv.go:16-34 | a read error (EOF included) is returned with no values; otherwise exactly one value per column, field i dispatched by `FieldValue` |
| CsvLoader.New | loader/csv/csv.go:38-56 | a nil parser map becomes an empty one; the header record becomes the columns in order; a header read error is returned |
| CsvReader.CsvReader.constructor | loader/csv.go:51-53 | a loader over a record reader with its options, no columns yet |
| CsvReader.CsvReader.Next | loader/csv.go:24-42 | a read error is returned unchanged; otherwise exactly one value per column, field i dispatched through the options' parsers |
| CsvReader.Source | loader/csv.go:54-63 | the given reader when the options hold one, else what opening the path gave |
| CsvReader.NewCsv | loader/csv.go:50-74 | an open error is returned; otherwise the header record becomes the columns in order, a header read error is returned, and the file is owned only when the loader opened it |
| Parser.Parse | parser/parser.go:46-52 | `TimeParser.Parse`: ok exactly when the time parses, then its Unix seconds, else 0 |
| Parser.ArgEntry | parser/parser.go:20-37 | one argument's entry or error; `ArgEntryCases` states every case |
| Parser.ArgEntryCases | parser/parser.go:20-37 | fewer than 3 fields, a non-integer index or `Time` with more than 3 fields is a bad-options error; another parser name is `Unknown parser`; success exactly for `index,Time,format`, giving that format at that index |
| Parser.Join3 | parser/parser.go:17 | three fields joined by commas |
| Parser.ArgEntryRoundTrip | parser/parser.go:15-34 | `index,Time,format` with comma-free parts parses to a time parser with that format at the parsed index |
| Parser.ArgEntryShape | parser/parser.go:29-34 | an argument that parses has exactly the fields index, `Time`, format |
| Parser.Entries | parser/parser.go:20-37 | one parsed entry per argument, in order |
| Parser.Build | parser/parser.go:19-39 | the map built entry by entry, a later index replacing an earlier one, the first error ending it; `BuildError`, `BuildKeys` and `BuildLastWins` state it |
| Parser.ParsersOf | parser/parser.go:18-40 | what `ParsersFromArgs` returns: `Build` of the arguments' entries |
| Parser.BuildErr | parser/parser.go:20-38 | once an argument fails, the result is that error, whatever follows |
| Parser.ParsersFromArgs | parser/parser.go:18-40 | the loop returns exactly `ParsersOf` the arguments |
| Parser.BuildError | parser/parser.go:20-38 | the result is an error exactly when some argument fails, and then it is the first failing argument's error |
| Parser.BuildKeys | parser/parser.go:19-39 | on success the map's keys are exactly the parsed indexes |
| Parser.BuildLastWins | parser/parser.go:34 | a later argument with the same index overwrites an earlier one: the map holds each index's last parser |
| Parser.NoArgs | parser/parser.go:19-39 | no arguments give an empty map and no error |
| Parser.OneTimeArg | parser/parser.go:18-40 | one argument `index,Time,format` gives the one-entry map index → that time parser |
| Types.Len | types/types.go:94-101 | the matrix row count, or 0 without a matrix |
| Types.CPos | types/types.go:103-113 | within [-1, number of columns); -1 exactly when no column has the name; otherwise the first column with the name |
| Types.Rows.constructor | types/types.go:119-133 | an iterator over a dataset, at row 0 |
| Types.Rows.Next | types/types.go:119-133 | no matrix: `ErrNoData`; at the end: EOF and the index back to 0; otherwise the row at the index, which then goes up by one |
| Types.ReadBack | types/types.go:119-133 | reading a dataset with a matrix from row 0 to EOF yields exactly its rows |
| Types.FunctionOf | types/types.go:215-224 | the function a name selects, exactly `sum`, `min`, `max` or `avg`; `FunctionOfAgrees` ties it to `Function.Apply` |
| Types.FunctionOfAgrees | types/types.go:215-224 | `sum`, `min`, `max` and `avg` select the reduction `Function.Apply` picks for that name |
| Types.ColumnsMap | types/types.go:205-214 | the column map `NewQuery` builds; `ColumnsMapKeys` and `ColumnsMapLastWins` state its keys and lists |
| Types.AddArg | types/types.go:206-213 | one argument sets its first field's column list to the fields after the first |
| Types.UpdateTwice | types/types.go:209-212 | setting a name's list twice keeps the second |
| Types.ColumnsMapStep | types/types.go:205-214 | one more argument overwrites its name's column list |
| Types.NewQuery | types/types.go:197-226 | one dataset name per argument, in order, duplicates kept; the column map of the arguments; the function `sum`/`min`/`max`/`avg` or none; `fnStr`, `Max`, `Col` as given; `Len` is the argument count |
| Types.ColumnsMapLastWins | types/types.go:205-214 | a name's column list comes from its last argument: the fields after the first |
| Types.ColumnsMapKeys | types/types.go:205-214 | the map's names are exactly the first fields of the arguments |
| Types.Columns | types/types.go:152-161 | a copy of the name's column list, or an empty list when the name is absent |
| Types.QueryLen | types/types.go:148-150 | `Query.Len`: the number of dataset names; `NewQuery` makes it the argument count |
| Types.FlatOf | types/types.go:163-172 | the column lists of some names, concatenated in order; `FlatOfAppend` states how it splits |
| Types.ColumnsFlat | types/types.go:163-172 | the column lists of the names in `Datasets` order, concatenated |
| Types.FlatOfAppend | types/types.go:163-172 | flattening two name lists one after the other concatenates their columns |
| TypesQuery.Len | types/query.go:32-34 | `Query.Len`: the number of selectors |
| TypesQuery.SelectorOf | types/query.go:91-98 | a selector: name and columns hold no comma, and joining them with commas gives back the argument |
| TypesQuery.NewQuery | types/query.go:78-101 | one selector per argument in order, name the first comma field and columns the others (empty for one field); the function always present with the given name; a grouping exactly when the grouping string is non-empty, parsed by `NewGrouping` |
| TypesQuery.ParseSelector | types/query.go:92-98 | one pass of the loop computes the argument's selector |
| TypesQuery.Flat | types/query.go:36-46 | every selector's columns, concatenated in order; `FlatAppend` states how it splits |
| TypesQuery.FlatAppend | types/query.go:38-46 | flattening two selector lists one after the other concatenates their columns |
| TypesQuery.Columns | types/query.go:36-46 | every selector's columns, in selector order, concatenated |
| TypesQuery.QValue | types/query.go:55-62 | the `q` value is a prefix of name and columns joined by commas |
| TypesQuery.QValueOfArg | types/query.go:55-98 | the `q` value of a parsed argument is the argument with trailing commas trimmed |
| TypesQuery.QValueRoundTrip | types/query.go:55-98 | parsing the `q` value of a selector gives back the selector, when no part has a comma and the last column is not empty |
| TypesQuery.JoinLast | types/query.go:61 | a join whose last part is non-empty does not end with the separator |
| TypesQuery.Applied | types/query.go:66-72 | without a grouping the matrix unchanged; otherwise the function applied to the grouping's windows |
| TypesQuery.AppliedCells | types/query.go:66-72 | with a grouping: one row per window, as wide as the matrix, entry (i,j) the reduction of column j of window i; no windows give nil or a 0×0 matrix |
| TypesQuery.Apply | types/query.go:66-72 | `Apply` returns exactly `Applied` |
| TypesQuery.QValueExample | types/query.go:55-62 | the `q` values `D0,x,y,z` and `D1,z` |
| TypesQuery.SelectorExample | types/query.go:91-98 | `D0,x,y,z` and `D1,z` parse to D0 with x, y, z and D1 with z |
| TypesQuery.FlatExample | types/query.go:36-46 | those two selectors flatten to x, y, z, z |
| Stack.Pick | clients/bolt.go:156-168 | the columns of the requested names, in request order, each the stored column at the name's `CPos`; `ErrNotFound` when a name is not stored |
| Stack.PickFails | clients/bolt.go:158-163 | picking fails exactly when some requested name is not among the stored columns |
| Stack.PickColumns | clients/bolt.go:156-168 | the column loop returns exactly `Pick` |
| Stack.PickStops | clients/bolt.go:161-163 | once a name is missing, the result is that failure whatever names follow |
| Stack.SumRows | store/database.go:135-144 | the total row count of the named matrices, a name counted each time it is listed |
| Stack.Filled | clients/bolt.go:173-182 | a rows×(number of vectors) matrix: cell (i,j) is value i of vector j when the vector is that long, otherwise 0 |
| Stack.FilledColumn | clients/bolt.go:173-182 | column j of the result is vector j cut to the row count, or vector j followed by zeros |
| Stack.Fill | clients/bolt.go:174-182 | the nested fill loops compute exactly `Filled` |
| Clients.Wanted | clients/bolt.go:150-154 | a column list of exactly `*` means all stored columns in stored order; any other list is used as given |
| Clients.Names | clients/bolt.go:125 | the dataset name of each selector, in order |
| Clients.Read | clients/bolt.go:63-85 | `read`: `ErrNotFound` exactly when the name has no dataset entry; otherwise that name and stored columns, with the stored matrix exactly when there is one |
| Clients.Gather | clients/bolt.go:125-169 | the column names and vectors picked, as many names as vectors; any failure is `ErrNotFound` |
| Clients.DistinctNamesIn | clients/bolt.go:130-144 | every distinct selected name has a matrix |
| Clients.RowCount | clients/bolt.go:130-143 | the rows of every distinct selected dataset, each counted once; `RowCountRepeat` and `RowCountNew` state how it grows |
| Clients.RowCountRepeat | clients/bolt.go:130 | a name seen before adds no rows |
| Clients.RowCountNew | clients/bolt.go:130-143 | a new name adds its matrix's row count |
| Clients.NamesSnoc | clients/bolt.go:125 | one more selector appends its name |
| Clients.DistinctSnoc | clients/bolt.go:130-143 | a name seen before leaves the distinct names as they are; a new one is appended |
| Clients.GatherSnocFails | clients/bolt.go:132-163 | one more selector fails exactly when the prefix failed or it names no dataset or a missing column |
| Clients.GatherFails | clients/bolt.go:132-163 | the query fails with `ErrNotFound` exactly when some selector names no dataset or a missing column |
| Clients.GatherStops | clients/bolt.go:132-163 | once a prefix of the selectors fails, the whole query fails |
| Clients.ServablePrefix | clients/bolt.go:125 | the conditions for serving selectors hold for every prefix |
| Clients.GatherStep | clients/bolt.go:125-169 | one more selector: a missing dataset fails; otherwise its wanted columns are picked and appended after the earlier ones |
| Clients.TrackedSnoc | clients/bolt.go:130-146 | after one more selector, the cache holds each selected name's dataset once and the row counter is the sum over distinct names |
| Clients.TrackedRepeat | clients/bolt.go:130-146 | a cached name leaves the cache and the counter unchanged |
| Clients.TrackedNew | clients/bolt.go:130-146 | a new name is read into the cache and its rows are counted |
| Clients.TrackedStep | clients/bolt.go:130-146 | the same for selector i after the first i |
| Clients.Lookup | clients/bolt.go:130-146 | the dataset of selector i, read the first time its name comes up and taken from the cache afterwards; a missing name is `ErrNotFound` |
| Clients.Resolve | clients/bolt.go:125-169 | the selector loop returns exactly `Gather`, and on success the row count is the sum of the row counts of the distinct selected datasets |
| Clients.BoltClient.constructor | clients/bolt.go:192-211 | a fresh store holds no datasets and no matrices |
| Clients.BoltClient.Write | clients/bolt.go:41-61 | the dataset entry is set; the matrix entry is set when the dataset has a matrix and left as it was otherwise (an older matrix stays); `read` then gives back the dataset when it has a matrix or none was stored before |
| Clients.BoltClient.Delete | clients/bolt.go:87-96 | both entries of the name are removed and nothing else; `read` of the name is then `ErrNotFound` |
| Clients.BoltClient.Datasets | clients/bolt.go:25-39 | one dataset per entry of the datasets bucket, each with its stored columns and no matrix, and every stored dataset listed |
| Clients.BoltClient.Query | clients/bolt.go:108-186 | `ErrNotFound` when a dataset or column is missing; otherwise a dataset named `QueryResult` whose columns are the requested names in selector order (duplicates kept, `*` expanded), whose matrix has the distinct datasets' row count, cell (i,j) taken from column j or 0, and to which `query.Apply` is applied |
| Database.QueryFromArgs | store/database.go:26-36 | one query per argument, in order: name the first comma field, columns the rest |
| Database.Read | store/database.go:86-112 | no datasets bucket: no dataset, no matrix, no error; otherwise `ErrNotFound` exactly when the dataset entry, the matrix bucket or the matrix entry is missing, and the stored dataset and matrix otherwise |
| Database.Stacking | store/database.go:135-159 | the names and vectors picked, as many names as vectors; any failure is `ErrNotFound` |
| Database.ServablePrefix | store/database.go:135 | the conditions for serving queries hold for every prefix |
| Database.Names | store/database.go:135-136 | the dataset name of each query, in order |
| Database.StackRows | store/database.go:135-144 | the row count is the sum of the row counts over every query, a name counted each time it is queried |
| Database.StackFails | store/database.go:136-153 | the query fails with `ErrNotFound` exactly when some query names a missing dataset or matrix or a missing column |
| Database.StackSnocFails | store/database.go:136-153 | one more query fails exactly when the prefix failed or the new query cannot be served |
| Database.StackStops | store/database.go:137-153 | once a prefix fails, the whole query fails |
| Database.StackStep | store/database.go:135-159 | one more query: a read error fails; otherwise its columns are picked and appended and its rows added |
| Database.DB.constructor | store/database.go:182-191 | a fresh store has neither bucket |
| Database.DB.Write | store/database.go:61-84 | both buckets are created if absent and the dataset and matrix are stored under the name; `Read` then gives them back with no error |
| Database.DB.Datasets | store/database.go:42-59 | no bucket: no datasets; otherwise exactly the stored datasets, one per entry |
| Database.DB.Query | store/database.go:115-174 | `ErrNotFound` when a dataset, matrix or column is missing; otherwise a dataset named `QueryResult` with the requested columns in order and a matrix whose row count sums every query's rows, cell (i,j) from column j or 0 |

## Left out

- BoltDB itself is not modelled: transactions, cursors and error returns of `Put`/`Delete`/`Get`. The same goes for JSON and binary marshalling of datasets, matrices and groupings. Each store is its maps.
- `Clients.BoltClient.Datasets` and `Database.DB.Datasets` return every stored dataset once, in no stated order. Bolt's key order is not modelled.
- `NewBoltClient`, `NewDB` and `Close` open and close files. Only the empty store they start from is modelled.
- Opening files (`os.Open`) is not modelled; what it reported is a parameter. This applies to `Loader.ReadPath`, `Loaders.Load` and `CsvReader.NewCsv`.
- `encoding/csv` quoting and line splitting are not modelled. A record reader is given its records already split, or a read error in their place.
- `strconv.ParseInt`, `strconv.ParseFloat`, `time.ParseDuration`, `Duration.String` and `time.Parse` are parameters (`Base.Codecs`), not implementations. Properties that need a round trip state it as a precondition on those parameters.
- Floating point is not modelled; cells are real numbers.
- Loader.Invalid: the identity, because reals have no NaN or infinities to filter.
- GoStrings.ToLower: lowers ASCII letters only. Go's `strings.ToLower` maps every Unicode letter, so `TypesFunction.Choose` differs from the source on names with other upper-case letters: Go lowers `MİN` to `min` and selects the minimum, the model keeps `İ` and selects the average.
- Functions.Aggregate: the reduction is one of four (`Reducer`: sum, minimum, maximum, average of a column). The source takes any `func(mtx.Matrix) float64`.
- float64 rounding is not modelled.
- A division by a zero row count in an average cannot occur: windows are non-empty.
- Calendar extraction (`Year`, `Month`, `Day`, `Unix` of a `time.Time`) is not modelled. Those values are given fields of `Models.Time`.
- Go `int` overflow of rollup keys is not modelled; keys are unbounded integers.
- The mutex in `Dataset.Next` is not modelled: the model is sequential.
- `QueryStr`, `String` and `url.Values.Encode` are not modelled beyond the per-dataset `q` value (`TypesQuery.QValue`). That leaves out the percent-encoding and key sorting, the `fn` and `grouping` values, and `NewQueryFromQS`/`NewQueryQS` URL parsing.
- `Len` methods (`Datapoints.Len`, `Rows.Len`) are sequence lengths.
- `Models.RollUp`: requires that no two rows share a `Values` array (`Separate`). Rows that alias one array are not modelled.
- `Models.RollUp`: requires that no row of a bucket is longer than the bucket's first row (`Fits`). For a longer row the source panics with an index out of range.
- `Models.RollUp`: the rollup's output order is fixed by first appearance of each key. The source ranges over a Go map, whose order is unspecified.
- `Activities.RollUpActivities`: the output is in order of first appearance. Its final `sort.Sort` is left out because the ordering of `tcx.Acts` belongs to the tcx package, which is not part of this model.
- `Activities.RollUpActivities`: appending laps to the first activity is done on values. Any sharing of a backing array between a bucket's first activity and the input is not modelled.
- A tcx activity is only its start time and its laps' distances (`Activities.Activity`); the rest of the tcx types is not part of this model.
- `Activities.ActivityByDist`: the commented-out `sort.Sort` is not modelled; it does not run.
- `Clients.BoltClient.Query`: requires `Servable`, that every named dataset that exists has a matrix at least as wide as its column list. Otherwise the source dereferences a nil matrix or indexes past it and panics.
- `Clients.BoltClient.Query`: requires `Groupable`, that a grouping's column exists in a non-empty result. Otherwise the source panics reading it.
- `Database.DB.Query`: requires `Servable`: a query that reads anything finds the datasets bucket, and each dataset's matrix is as wide as its column list. Otherwise the source dereferences the nil dataset `Read` returns and panics.
- `Grouping.Group`, `Functions.Aggregate` and `Functions.AggregateCorrected` require the time or total column to exist. `TypesFunction.Apply` requires every window to be at least as wide as the first. The source panics in each of these cases.
- `Loader.ReadPath`: an encoding other than CSV is the error `UnknownEncoding` where the source panics.
- Gonum views share memory with their matrix; here a view is a copy of its rows. Nothing in the core writes through a view.
- The Excel and TCX loaders, the HTTP client and server, the command line, charts and the SQLite store are not part of this model.

## Findings

| source | as written | input that shows it | evidently intended | confidence | as-written member | corrected member |
|---|---|---|---|---|---|---|
| functions/functions.go:35 | a closed window's row is written at index `i/j` of the grown result | `max` 3, `Max`, column 3, 1, 2 gives rows 2, 0, 2 (the second window overwrites the first); `max` 2, `Sum`, column 1, 1, 2 writes at index 2 of a 2-row result, a panic | each closed window's row goes to the new last row, one row per window in order | not executed | Functions.AsWrittenOverwrites | Functions.AggregateCorrected |
| functions/functions.go:41-45 | a row from the current view is appended whenever `i+j` reaches the row count, also right after a window closed on the last row | `max` 1, `Sum`, column 1, 1 gives three rows, the last window twice | the final row only for a window still open at the last row | not executed | Functions.AsWrittenRepeatsLast | Functions.AggregatedSum |
| models/models.go:69 | the day key is `year*12 + month*31 + day` | 13 January 2000 and 1 January 2001 both have key 24044 and are rolled up into one row | a key that is the same exactly for the same calendar day | not executed | Models.DayKeyCollides | Models.FixedKeySeparates |
| models.go:86 | `TimeKey` for "day" is `year*12 + month*31 + day` | 13 January 2000 and 1 January 2001 both have key 24044, so their activities merge | a key that is the same exactly for the same calendar day | not executed | Activities.TimeKeyCollides | Activities.FixedTimeKeySeparates |
