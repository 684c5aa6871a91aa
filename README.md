# que-ldrd-tools: result summarising and database merging, in Dafny

The tools under `tools/` turn the output of a network benchmark campaign
(Apache Bench, tcptrace, owping/powstream, vmstat, `/proc/interrupts`,
sysdig call counts) into numbers.

- `summarize_test_results.py` holds the readers and `get_file_reader`.
  - `main` writes one CSV row per parameter set, side and field, with
    the count and the statistics that `stats` computes.
  - `create_db` loads every value into an SQLite `data` table, beside an
    `experiments` table of parameter sets.
  - `summarize_db` builds a `summary` table from the loaded data.
- `utils.py` guesses the test parameters from a file's directories.
  It also judges whether a run was broken, and writes the SQL statements.
- `combine.py` merges one such database into another. It maps the
  source's experiment ids onto the destination's.

The model follows the code file by file.

- Readers that loop over lines are methods with loop invariants. Each is
  proved against a function that reads the file line by line.
- Pure helpers are functions, such as the line matchers, the path
  arithmetic, the parameter decoding and the statistics.
- The SQLite connection is the class `Store.Database`. It has a working
  `content` and a `committed` content.
- `create_db`, `summarize_db`, `main`, `copy_table` and `merge` are
  methods over that class. Each is proved equal to a function of the
  initial database, and lemmas state what that function leaves in the
  tables.
- Python's ordered dicts are `Record`s, sequences of `(key, Cell)` pairs.
- Files are their lines.
- A generator is the `Yield` it produces: the triples yielded, and
  whether it raised afterwards.

Modules, one per file:

- Base (base.dfy): cells, sides, ordered dicts, yields
- Text (text.dfy): `str.strip`, `split`, `int()`, `float()`, `os.path`
- Order (order.dfy): `sorted`
- Sql (sql.dfy): `columns`, `create_table_stmt` and `insert_stmt`
- Store (store.dfy): the SQLite connection
- Statistics (stats.dfy): `stats`
- TcptraceLines, Tcptrace, TcptraceSummary (tcptrace_lines.dfy, tcptrace.dfy, tcptrace_summary.dfy): the tcptrace readers
- ABench (abench.dfy): the Apache Bench reader
- OwampLines, Owamp (owamp_lines.dfy, owamp.dfy): the owping reader
- VmStat (vmstat.dfy): the vmstat reader
- Interrupts (interrupts.dfy): the interrupts reader
- Sysdig (sysdig.dfy): the sysdig call-count reader
- Dispatch (dispatch.dfy): `get_file_reader`
- Broken (broken.dfy): `check_test_broken`
- Inference (inference.dfy): `guess_test_parameters`
- CreateDb (createdb.dfy): `create_db`
- SummarizeDb (summarizedb.dfy): `summarize_db`
- Report (report.dfy): `main`
- Combine (combine.dfy): `copy_table` and `merge`

Where a source routine has a defect, the model keeps two definitions.
One is the routine as written, with a lemma that exhibits the defect.
The other is the corrected routine, with the intended property proved.
The rest of the model uses the corrected one, except where a row below
says otherwise. "## Findings" lists the four pairs.

## Model

| member | source | states |
|---|---|---|
| Base.Lookup | tools/summarize_test_results.py:722 | `r[key]` is present exactly when `key` is a key of `r`, and then it is the value of an entry under `key` |
| Base.Delete | tools/summarize_test_results.py:539-542 | `del r[key]` leaves no entry under `key`, and keeps exactly the entries under other keys |
| Base.Put | tools/utils.py:169-190 | after `r[key] = v`, `key` is present and holds `v` |
| Base.PutOther | tools/utils.py:169-190 | setting one key leaves the value of every other key as it was |
| Base.UpdateOther | tools/summarize_test_results.py:724-739 | `results.update(s)` leaves the keys that `s` does not mention as they were |
| Base.UpdateLast | tools/summarize_test_results.py:724-739 | after `update(s)`, a key of `s` holds its value from `s` |
| Base.UpdateKeeps | tools/summarize_test_results.py:724-739 | `update` removes no key |
| Text.Strip | tools/summarize_test_results.py:47 | `s.strip()` starts and ends with no whitespace and is no longer than `s` |
| Text.StripRemoves | tools/summarize_test_results.py:47 | `s.strip()` removes exactly the leading and the trailing whitespace: it is the slice of `s` after its leading whitespace, and only whitespace follows it |
| Text.Split | tools/summarize_test_results.py:346 | `s.split()` gives non-empty tokens without whitespace |
| Text.SplitJoin | tools/summarize_test_results.py:346 | splitting space-joined tokens gives the tokens back |
| Text.SplitOn | tools/utils.py:104 | `s.split(sep)` has at least one part, and no part holds `sep` |
| Text.JoinSplitOn | tools/utils.py:104 | joining the parts of `s.split(sep)` with `sep` rebuilds `s` |
| Text.SplitOnJoin | tools/utils.py:104 | splitting a joined list of separator-free parts gives the parts back |
| Text.ReplaceAbsent | tools/utils.py:80 | `replace` leaves a text without the pattern unchanged |
| Text.Lower | tools/summarize_test_results.py:377 | `lower()` keeps the length and lower-cases each character on its own |
| Text.StripChar | tools/summarize_test_results.py:372 | `strip(':')` starts and ends with no `:` and is no longer than the text |
| Text.StripCharRemoves | tools/summarize_test_results.py:372 | `strip(':')` removes exactly the leading and the trailing colons: it is the slice of the text after its leading colons, and only colons follow it |
| Text.PyIntIsPyFloat | tools/summarize_test_results.py:75-81 | whatever `int()` accepts, `float()` accepts with the same value |
| Text.ScaledPlain | tools/summarize_test_results.py:79 | `float()` of text with no `e` or `E` is its decimal value |
| Text.ScaledUp | tools/summarize_test_results.py:79 | `float()` of `<mantissa>e<digits>` is the mantissa times ten to the exponent |
| Text.ExponentExample | tools/summarize_test_results.py:79 | `float("1e3")` is 1000 |
| Text.PyFloatFraction | tools/summarize_test_results.py:297 | `float()` of `\d+\.\d*` text is its decimal value |
| Text.Basename | tools/utils.py:103 | `os.path.basename(p)` holds no `/` |
| Text.Dirname | tools/utils.py:109 | `os.path.dirname(p)` is no longer than `p` |
| Text.DirnamePrefix | tools/utils.py:109 | going up keeps a prefix of the path |
| Text.DirnameShortens | tools/utils.py:150 | `dirname` shortens every path except one of two or more slashes, which it returns unchanged |
| Text.ChildParts | tools/utils.py:103-109 | for `a/x`, basename is `x` and dirname is `a` when `a` does not end in `/` |
| Order.SortBy | tools/summarize_test_results.py:637 | `sorted(s)` is a permutation of `s` |
| Order.SortBySorted | tools/summarize_test_results.py:637 | the result of `sorted` is in order |
| Order.SortStringsSorted | tools/summarize_test_results.py:637 | sorting strings orders them as Python 2 compares `str`s (lexicographically by code) |
| Order.StrLeIsTotalPreorder | tools/summarize_test_results.py:637 | string comparison is total and transitive |
| Order.SortedSetIsStrict | tools/summarize_test_results.py:637 | `sorted(set(...))` lists each element once, strictly increasing |
| Sql.SqlType | tools/utils.py:201-212 | `STRING` for `str`, `unicode` and `None` and for nothing else; `INT` for `int`; `REAL` for `float`; no column for anything else |
| Sql.ColumnsOf | tools/utils.py:193-215 | `columns` gives at most one column per entry of the exemplar |
| Sql.Columns | tools/utils.py:193-215 | the loop appending to `cols` returns `ColumnsOf(exemplar, skipCols)` |
| Sql.ColumnsOfAppend | tools/utils.py:201 | `columns` of a concatenation is the concatenation of `columns`: the exemplar's order is kept |
| Sql.ColumnsOfMember | tools/utils.py:201-212 | a column is listed exactly when an entry has that name, is not skipped and holds a value of that type |
| Sql.ColumnsOfEvery | tools/utils.py:193-215 | with nothing skipped and every value typed, there is one column per entry, under the entry's name |
| Sql.CreateTableDefinitions | tools/utils.py:217-228 | the column list of `CREATE TABLE` splits at its commas back into one `name TYPE` per column, when no name holds a comma |
| Sql.PlaceholdersSplit | tools/utils.py:239 | `','.join('?'*n)` splits into `n` single `?`s |
| Sql.PlaceholdersCount | tools/utils.py:239 | the placeholder list holds exactly `n` question marks |
| Sql.InsertStmtBindsEachColumn | tools/utils.py:230-242 | the insert statement binds one `?` per column, when no table or column name holds a `?` |
| Sql.DataColumns | tools/summarize_test_results.py:517-526 | the `data` table's columns are experiment, iteration, instance, field, side and value, typed INT, INT, STRING, STRING, STRING, REAL |
| Store.ColumnNames | tools/combine.py:25 | one name per column |
| Store.Create | tools/combine.py:67 | `CREATE TABLE` adds one empty table after the others and keeps the others |
| Store.Append | tools/combine.py:38-42 | rows are appended to one table in order; every other table is unchanged |
| Store.ColumnIndex | tools/combine.py:28 | the index found is the first column with that name |
| Store.AppendNothing | tools/combine.py:41-42 | appending no rows changes nothing |
| Store.AppendTwice | tools/combine.py:37-42 | appending in two batches is appending once, so the batch size does not matter |
| Store.Database.constructor | tools/combine.py:47 | `sqlite3.connect` sees what is committed |
| Store.Database.CreateTable | tools/combine.py:67 | pending rows are committed first; creation fails exactly when the table exists; a created table is committed |
| Store.Database.Insert | tools/combine.py:107-109 | an insert that fits appends the row and returns its rowid, the new row count; otherwise nothing changes |
| Store.Database.InsertMany | tools/combine.py:38-42 | `executemany` appends every row when all fit, and nothing otherwise |
| Store.Database.Commit | tools/combine.py:112 | the working content becomes the committed content |
| Store.Database.Abandon | tools/summarize_test_results.py:571-572 | a connection that goes away without a commit loses what was not committed |
| Statistics.SortReals | tools/summarize_test_results.py:746-747 | the sorted values are a permutation of the values |
| Statistics.SortRealsAscending | tools/summarize_test_results.py:746-747 | the values as `SortReals` orders them are ascending |
| Statistics.MinOfIsLeast | tools/summarize_test_results.py:754 | `min(vals)` is in `vals` and no value is below it |
| Statistics.MaxOfIsGreatest | tools/summarize_test_results.py:759 | `max(vals)` is in `vals` and no value is above it |
| Statistics.PercentileBetween | tools/summarize_test_results.py:746-758 | a percentile lies between the least and the greatest value |
| Statistics.PercentileMonotone | tools/summarize_test_results.py:746-758 | a higher percentage never gives a lower percentile |
| Statistics.PercentileEnds | tools/summarize_test_results.py:746-758 | on sorted values, the 0th percentile is the first value and the 100th the last |
| Statistics.MeanBetween | tools/summarize_test_results.py:760 | the mean lies between the least and the greatest value |
| Statistics.SquaredDeviations | tools/summarize_test_results.py:761 | the sum of squared deviations is never negative, so neither is the variance |
| Statistics.CountOutside | tools/summarize_test_results.py:749 | the outliers counted are at most the number of values |
| Statistics.SummaryOrdered | tools/summarize_test_results.py:742-763 | min <= p25 <= median <= p75 <= p95 <= max, min <= mean <= max, variance >= 0, and 0 <= outliers <= count |
| Statistics.Stats | tools/summarize_test_results.py:742-763 | ten entries under the ten names in order; the first is the count |
| Statistics.StatsEmpty | tools/summarize_test_results.py:752-762 | the nine entries after the count are empty strings exactly for an empty list; otherwise all are numbers |
| Statistics.StatsEntriesOrdered | tools/summarize_test_results.py:742-763 | the entries of `stats` on a non-empty list keep the order of `SummaryOrdered` |
| Statistics.EntriesOrdered | tools/summarize_test_results.py:752-762 | the order of a summary carries over to its named entries |
| TcptraceLines.TotalPackets | tools/summarize_test_results.py:38 | a packet count is read only from a line that starts with `total packets:` |
| TcptraceLines.TotalPacketsRead | tools/summarize_test_results.py:38 | `total packets:`, whitespace and digits is read as the number those digits spell |
| TcptraceLines.PacketsLineUnmatched | tools/summarize_test_results.py:59-61 | a total-packets line matches neither field pattern |
| TcptraceLines.MatchNoUnits | tools/summarize_test_results.py:36 | both fields are non-empty and hold no colon, and the server value is a non-empty token without whitespace |
| TcptraceLines.MatchUnits | tools/summarize_test_results.py:37 | the client field is non-empty and holds no colon, and the server field holds no colon |
| TcptraceLines.MatchField | tools/summarize_test_results.py:59-61 | the no-units pattern is tried first, then the units pattern; a match has a non-empty client field without a colon |
| TcptraceLines.MatchRender | tools/summarize_test_results.py:59-61 | the matcher reads a rendered `field: value  field: value` line back into its four parts |
| TcptraceLines.RenderedNotTotal | tools/summarize_test_results.py:50-55 | a rendered line is never a total-packets line |
| TcptraceLines.FieldLineNotTotal | tools/summarize_test_results.py:49-55 | a line `field: value` followed by a space and more text is never a total-packets line |
| TcptraceLines.MatchRenderUnits | tools/summarize_test_results.py:36-37 | a line with a unit after each value is refused by the no-units pattern and read by the units pattern back into its four fields |
| TcptraceLines.Coerce | tools/summarize_test_results.py:75-89 | the value conversion tries `int()`, then `float()`, then gives 0 |
| TcptraceLines.CoerceExponent | tools/summarize_test_results.py:75-81 | `1e3` is not an `int()` but is a `float()` of 1000 |
| Tcptrace.Pair | tools/summarize_test_results.py:91-92 | a client triple then a server triple, under the line's two fields, each value an `int` or a `float` |
| Tcptrace.Emit | tools/summarize_test_results.py:63-92 | no triple or two; two only for a match whose client field is not skipped, and then the line's pair |
| Tcptrace.ReadFile | tools/summarize_test_results.py:42-92 | the loop yields exactly what reading the lines one by one with the connection gate yields |
| Tcptrace.ReadLine | tools/summarize_test_results.py:46-92 | one pass of the loop is one step of that reading |
| Tcptrace.StepOf | tools/summarize_test_results.py:50-57 | a total-packets line opens the gate at the threshold and closes it below; a closed gate yields nothing |
| Tcptrace.GatedUntilOpened | tools/summarize_test_results.py:50-57 | until a total-packets line reaches the threshold, the lines before it may as well not be there |
| Tcptrace.NeverOpened | tools/summarize_test_results.py:50-57 | with no qualifying total-packets line, the reader yields nothing |
| Tcptrace.ReadPaired | tools/summarize_test_results.py:91-92 | the output is a sequence of pairs, a client triple followed by a server triple |
| Tcptrace.RenderedLineYields | tools/summarize_test_results.py:59-92 | a rendered line of an open connection yields exactly its client triple and then its server triple |
| Tcptrace.UnitLineYields | tools/summarize_test_results.py:59-92 | a line with units, of an open connection, yields exactly its client triple and then its server triple, the units dropped |
| Tcptrace.PacketsLineGate | tools/summarize_test_results.py:49-57 | a total-packets line yields nothing and leaves the gate open exactly when its count reaches the threshold |
| TcptraceSummary.KeysSeen | tools/summarize_test_results.py:103-108 | the distinct (side, field) keys in the order first seen |
| TcptraceSummary.KeysSeenExact | tools/summarize_test_results.py:103-108 | each key is listed once, every yielded key is listed, and every listed key was yielded |
| TcptraceSummary.ValuesOf | tools/summarize_test_results.py:103-108 | the values under a key, in order |
| TcptraceSummary.ValuesOfSeen | tools/summarize_test_results.py:103-108 | every key seen has at least one value |
| TcptraceSummary.StatTriples | tools/summarize_test_results.py:110-112 | ten triples per key, named `field.replace(' ', '_') + '_' + stat` |
| TcptraceSummary.SummaryOf | tools/summarize_test_results.py:110-112 | ten entries per key, in key order |
| TcptraceSummary.SummaryAt | tools/summarize_test_results.py:110-112 | entry `j` of key `i`'s block is statistic `j` of that key's values |
| TcptraceSummary.ReadSummary | tools/summarize_test_results.py:100-112 | the reader yields the summary of every key of the tcptrace output |
| TcptraceSummary.GroupByKey | tools/summarize_test_results.py:103-108 | the first loop collects the keys seen and each key's values |
| TcptraceSummary.SummarizeGroups | tools/summarize_test_results.py:110-112 | the second loop yields `SummaryOf` the keys |
| TcptraceSummary.SummaryShape | tools/summarize_test_results.py:100-112 | ten entries per distinct key; a key appears exactly when the reader yielded a triple under it, with the statistics of its values |
| ABench.BranchFrom | tools/summarize_test_results.py:152-211 | the first branch from `k` whose text starts the line, and None when no branch's text does |
| ABench.Capture | tools/summarize_test_results.py:134-138 | the capture is non-empty and starts with a digit, on a line that starts with the heading |
| ABench.Convert | tools/summarize_test_results.py:156-204 | `float()` for the three rates and `int()` for the two request counts; None where they raise |
| ABench.LineYield | tools/summarize_test_results.py:147-211 | one line yields at most one value |
| ABench.ReadFile | tools/summarize_test_results.py:141-218 | the loop yields each line's value in order, and logs the parse error exactly when fewer than five were seen |
| ABench.ReadLine | tools/summarize_test_results.py:147-211 | one pass of the loop is `LineYield` plus the count of values seen |
| ABench.YieldsAppend | tools/summarize_test_results.py:147 | reading two pieces of a file in turn is reading the whole: each line is read on its own |
| ABench.YieldsShape | tools/summarize_test_results.py:152-211 | every value is a client value under one of the five names: an `int` for the request counts and a `float` otherwise |
| ABench.ReportLineYields | tools/summarize_test_results.py:152-211 | a report line `heading  digits suffix` yields exactly its number |
| ABench.ReportLineRead | tools/summarize_test_results.py:134-138 | a line of heading, whitespace, number and suffix enters that branch and captures the number |
| ABench.BranchIs | tools/summarize_test_results.py:152-200 | the chain enters branch `k` on a line that starts with that branch's text |
| ABench.StartsExclusive | tools/summarize_test_results.py:152-200 | no line starts with the texts of two branches |
| ABench.FractionalCountSkipped | tools/summarize_test_results.py:190-210 | `int()` refuses a request count with a fraction, so the line is logged and not counted |
| OwampLines.PacketsRead | tools/summarize_test_results.py:258 | `n sent, l lost<x>` matches, with the duplicate count that the search over `x` finds |
| OwampLines.SummaryLineRead | tools/summarize_test_results.py:258 | owping's summary line reads back as its three counts, whatever the text in the middle |
| OwampLines.JitterLineRead | tools/summarize_test_results.py:259 | owping's jitter line reads back as its value |
| Owamp.ReadFile | tools/summarize_test_results.py:264-313 | the loop yields what reading the lines with `is_c2s` yields, and logs the parse error below the threshold (2 with a fixed direction, 4 without) |
| Owamp.ReadLine | tools/summarize_test_results.py:268-307 | one pass: the new `is_c2s`, the values yielded and the count added to `total_seen` |
| Owamp.FixedSide | tools/summarize_test_results.py:271-272 | with a fixed direction, every value is for that side |
| Owamp.ServerAfterJitter | tools/summarize_test_results.py:301 | once a jitter line has been read, every later value is the server's |
| Owamp.ClientUntilJitter | tools/summarize_test_results.py:273-274 | lines with no jitter line among them yield only client values |
| Owamp.ClientThroughJitter | tools/summarize_test_results.py:273-303 | up to and including the first jitter line, every value is the client's, the jitter included |
| Owamp.SplitAtJitter | tools/summarize_test_results.py:264-307 | the first test's values are the client's and the second test's the server's |
| Owamp.RunLength | tools/summarize_test_results.py:277-303 | each summary line adds three values and each jitter line one |
| VmStat.ReadFile | tools/summarize_test_results.py:321-352 | the loop yields every line's columns in order |
| VmStat.ReadLine | tools/summarize_test_results.py:344-352 | the triples yielded before the first `IndexError` or `ValueError`, which the bare `except` swallows |
| VmStat.ColumnsFromLength | tools/summarize_test_results.py:346-350 | at most one triple per column, and none past the seventeenth name |
| VmStat.ColumnsFromAt | tools/summarize_test_results.py:346-350 | the triple for column `j` is that column's integer under the `j`-th name |
| VmStat.ColumnsFromStop | tools/summarize_test_results.py:346-352 | reading stops at the line's end, after column seventeen, or at a column that is not an integer |
| VmStat.ColumnsShape | tools/summarize_test_results.py:346-352 | a line gives a prefix of its columns, at most seventeen, each under its name |
| VmStat.WholeLine | tools/summarize_test_results.py:346-350 | a line of at most seventeen integer columns is read whole |
| VmStat.ReadFromBounds | tools/summarize_test_results.py:321-352 | every triple carries the reader's side, and each line gives at most seventeen |
| Interrupts.Normalize | tools/summarize_test_results.py:377-378 | every character outside `[a-z0-9_]` becomes `_`, and the length is kept |
| Interrupts.Counts | tools/summarize_test_results.py:381 | `fields[1:cpu_count+1]`: at most `cpu_count` counts |
| Interrupts.ReadFile | tools/summarize_test_results.py:359-384 | the header's CPU count, then the loop yields each row's total |
| Interrupts.ReadRow | tools/summarize_test_results.py:365-384 | one row: skipped below three columns, otherwise its name and total, or a raise |
| Interrupts.SumColumns | tools/summarize_test_results.py:380-382 | the loop's total, or None when `int()` raises |
| Interrupts.SumIntsRaises | tools/summarize_test_results.py:381-382 | one count that is not an integer makes the sum raise |
| Interrupts.SumIntsSome | tools/summarize_test_results.py:381-382 | the sum succeeds exactly when every count is an integer |
| Interrupts.SumIntsDigits | tools/summarize_test_results.py:381-382 | counts of plain digits add up to the sum of their values |
| Interrupts.IrqNameChars | tools/summarize_test_results.py:372-378 | every name is made of `[a-z0-9_]` and has the length of the column it comes from |
| Interrupts.IrqNameOf | tools/summarize_test_results.py:372-378 | a named source keeps its name, and a numbered one takes the device's |
| Interrupts.RowsFromTriples | tools/summarize_test_results.py:365-384 | at most one triple per row, each for the reader's side, under an `int_` name |
| Interrupts.RowsFromRaises | tools/summarize_test_results.py:365-384 | the generator raises exactly when some row's counts are not all integers |
| Interrupts.RowsFromAppend | tools/summarize_test_results.py:365-384 | rows read before one that raises are still yielded |
| Interrupts.ShortRowSkipped | tools/summarize_test_results.py:368-369 | rows of fewer than three columns give nothing |
| Interrupts.NoCpus | tools/summarize_test_results.py:361-363 | only the columns that the header names are counted: with no header, every row totals zero |
| Sysdig.Kind | tools/summarize_test_results.py:404 | "workload" when the file name says so, "all" otherwise |
| Sysdig.ReadFile | tools/summarize_test_results.py:391-417 | the two header lines are dropped, then the loop yields each row's count |
| Sysdig.ReadRow | tools/summarize_test_results.py:410-417 | one row: a stop unless it has two columns, otherwise `int(parts[0])` or a raise |
| Sysdig.StopsAtFirstTable | tools/summarize_test_results.py:412-415 | nothing after the first row that is not two columns counts |
| Sysdig.RowsFromTriples | tools/summarize_test_results.py:417 | at most one triple per row, for the reader's side, under `sc_<kind>_<syscall>` |
| Sysdig.TableRead | tools/summarize_test_results.py:410-417 | a table of `count syscall` rows gives each call's count in order |
| Sysdig.RowsFromRaises | tools/summarize_test_results.py:417 | the generator raises exactly when a count in the first table is not an integer |
| Sysdig.HeaderOnly | tools/summarize_test_results.py:407-409 | a file of the header only, or shorter, yields nothing |
| Dispatch.FirstMatchingRule | tools/summarize_test_results.py:449-477 | `get_file_reader` picks the reader of the first rule that matches, and none exactly when no rule matches |
| Dispatch.ChosenSide | tools/summarize_test_results.py:454-474 | powstream and interrupts files are the server's when the name says "server"; sysdig and vmstat files are the client's when it says "client" |
| Dispatch.ABenchFile | tools/summarize_test_results.py:457-458 | a name ending in `ab.out` goes to the Apache Bench reader when it holds neither `owping.out` nor `server.tcptrace` |
| Broken.ScanDurations | tools/utils.py:44-52 | the loop keeps the duration of the last line that each pattern matches |
| Broken.MatchLine | tools/utils.py:46-52 | one `match` of each pattern |
| Broken.CheckTestBroken | tools/utils.py:16-64 | "unknown" without `ab.out`; otherwise the verdict on the last median and longest durations |
| Broken.BrokenExactly | tools/utils.py:54-64 | "true" exactly when both durations are known, the median is positive, and the longest is at least ten times the median and at least 1000 ms; "unknown" exactly when one is missing or zero |
| Broken.TenTimes | tools/utils.py:60 | the floor division `longest/median < 10` is `longest < 10 * median` |
| Broken.LastOfNone | tools/utils.py:44-55 | no duration is kept exactly when no line matches |
| Broken.LastOfIsLast | tools/utils.py:44-52 | the duration kept is from a matching line, and no later line matches |
| Broken.LastMatchIsLast | tools/utils.py:37-52 | over a file's lines, the duration kept is that of the last accepted line |
| Broken.MedianRow | tools/utils.py:37 | `  50%  <digits>` gives the median |
| Broken.LongestRow | tools/utils.py:38 | `  100%  <digits> (longest request)` gives the longest request |
| Inference.ExtrasOf | tools/utils.py:124-140 | one extra per word, each word read on its own |
| Inference.ApplyExtra | tools/utils.py:125-140 | one word's effect on the flags; None where `int()` raises |
| Inference.ScanExtras | tools/utils.py:124-140 | the extras loop computes `ExtrasOf` |
| Inference.ExtrasRunThrough | tools/utils.py:124-140 | the extras loop runs to the end exactly when every stress word has an integer count |
| Inference.ExtraStep | tools/utils.py:125-140 | what one word changes |
| Inference.ExtrasSwitch | tools/utils.py:125-140 | each flag is switched on exactly when its word is present (`noht` switches hyperthreading off) |
| Inference.ExtrasStress | tools/utils.py:132-137 | a stress count is kept unless a stress word of its kind is read |
| Inference.Unpack | tools/utils.py:113-121 | unpacking succeeds exactly when there are at least five words for a physical host, or at least eight otherwise; the environment and the NIC are the first two words |
| Inference.Level | tools/utils.py:100-150 | one pass of the loop body: it either breaks out with the iteration found, or moves up to `dirname` with `prev_path` set to the path |
| Inference.Offloading | tools/utils.py:163-166 | "on" and "off" become "enabled" and "disabled"; any other word is kept |
| Inference.Params | tools/utils.py:169-190 | the ordered dict returned has twenty entries |
| Inference.ParamsNamed | tools/utils.py:169-190 | the result lists the twenty parameters in order |
| Inference.GuessTestParameters | tools/utils.py:68-190 | CORRECTED: the walk equals `Guess`, which stops at every spelling of the root, and it always ends |
| Inference.ScanLevel | tools/utils.py:100-150 | one pass of the loop computes `Level` |
| Inference.DecodeRunName | tools/utils.py:113-121 | `run.bash`'s directory names decode to the eight words they are made of |
| Inference.DecodePhysicalName | tools/utils.py:113-118 | physical host names decode to five words; "10g" gives a rate of 10000 |
| Inference.NoDashNoLayout | tools/utils.py:113-121 | a directory name without `-` is never a run directory |
| Inference.RunDirectory | tools/utils.py:97-190 | a file in the iteration directory of a run directory gets that directory's parameters, with the iteration from the name |
| Inference.InstanceDirectory | tools/utils.py:106-110 | a file in an instance's directory gets the same, with the instance named |
| Inference.WalkWithoutDash | tools/utils.py:152-153 | a path without `-` has no parameters |
| Inference.AsWrittenAgrees | tools/utils.py:97-150 | AS WRITTEN vs CORRECTED: where the loop as written ends, it ends where the corrected one does |
| Inference.SlashesSpin | tools/utils.py:97-150 | AS WRITTEN: on a path of two or more slashes, the loop body gives back the same path |
| Inference.DoubleSlashHangs | tools/utils.py:97-150 | AS WRITTEN: `//x` has no parameters when corrected, and the loop as written never ends on it |
| Inference.WalkAsWrittenEnds | tools/utils.py:97-150 | AS WRITTEN: the loop ends on every path that does not start with two slashes, and then agrees with `Guess` |
| Inference.GuessEnds | tools/utils.py:68-190 | CORRECTED: `Guess` never hangs |
| CreateDb.DataRow | tools/summarize_test_results.py:560 | one cell per `data` column, the experiment id first |
| CreateDb.Register | tools/summarize_test_results.py:551-557 | afterwards the parameter set is registered, and the rows built and pending are untouched |
| CreateDb.Filings | tools/summarize_test_results.py:530-547 | each file's guessed parameters, reader and yield |
| CreateDb.IdsGrow | tools/summarize_test_results.py:555-557 | registering a new parameter set keeps the ids matching the table |
| CreateDb.FlushInv | tools/summarize_test_results.py:563-566 | a flush never fails and commits every row built |
| CreateDb.AddRowInv | tools/summarize_test_results.py:559-566 | adding a row keeps the invariant and puts the row after every row built before |
| CreateDb.RegisterOnce | tools/summarize_test_results.py:551-557 | a set seen before changes nothing; a new one adds exactly its own row to `experiments` |
| CreateDb.IdBound | tools/summarize_test_results.py:556-557 | the id of a registered set is the rowid of its row |
| CreateDb.FirstExperimentInv | tools/summarize_test_results.py:552-556 | on the first set, the table is made and then its row inserted |
| CreateDb.LoadFileInv | tools/summarize_test_results.py:530-566 | a file read in full keeps the invariant and adds its rows after the earlier ones |
| CreateDb.LoadResult | tools/summarize_test_results.py:508-574 | CORRECTED: a run that returns leaves every row built in `data`, once each and in order; each row refers to an experiment row; there is one experiment row per parameter set, at its id |
| CreateDb.LoadAsWrittenResult | tools/summarize_test_results.py:508-574 | AS WRITTEN: the data rows are the same, but only a prefix of the experiment rows inserted is kept |
| CreateDb.LostExperiment | tools/summarize_test_results.py:568-570 | AS WRITTEN vs CORRECTED: one empty file under a new parameter set leaves an empty `experiments` table as written, and its row when the final commit is unconditional |
| CreateDb.FirstRegister | tools/summarize_test_results.py:552-556 | the first set: the table is created and committed; the row is inserted and not committed |
| CreateDb.CreateDatabase | tools/summarize_test_results.py:508-574 | CORRECTED: the method ends in `Load`, which commits at the end even when no rows remain |
| CreateDb.LoadAll | tools/summarize_test_results.py:530-574 | the loop, the last flush and the commit, as `Finish` |
| CreateDb.FinishLoad | tools/summarize_test_results.py:568-574 | the remaining rows inserted, then the commit |
| CreateDb.ReadFiles | tools/summarize_test_results.py:530-566 | the loop over the files computes `LoadFiles` |
| CreateDb.FileFiling | tools/summarize_test_results.py:531-547 | the guess and the reader of one file |
| CreateDb.LoadOne | tools/summarize_test_results.py:531-566 | one pass of the loop computes `LoadFile` |
| CreateDb.RegisterKey | tools/summarize_test_results.py:551-557 | `if full_env not in envs` computes `Register` |
| CreateDb.AddRowsTo | tools/summarize_test_results.py:558-566 | the inner loop adds each triple's row, flushing above 100000 pending rows |
| SummarizeDb.Selected | tools/summarize_test_results.py:594 | at most one row per data row; `QueryClustered` states which |
| SummarizeDb.RunsOn | tools/summarize_test_results.py:598-617 | the groups are non-empty, and there are none exactly when there are no rows |
| SummarizeDb.Floats | tools/summarize_test_results.py:617 | one value per row of the group |
| SummarizeDb.SummaryRow | tools/summarize_test_results.py:603-622 | thirteen cells: the experiment, field and side of the group's first row, the number of rows in the group, then the other statistics |
| SummarizeDb.SummaryRows | tools/summarize_test_results.py:598-622 | one thirteen-cell summary row per group, in order |
| SummarizeDb.SummaryColumns | tools/summarize_test_results.py:584-591 | the summary table's columns: experiment, field, side, then the ten statistics |
| SummarizeDb.SummarizeDatabase | tools/summarize_test_results.py:577-629 | AS WRITTEN: the method ends in `SummarizeAsWritten`, which groups by field only |
| SummarizeDb.FillSummary | tools/summarize_test_results.py:594-624 | the query, the loop and the commit |
| SummarizeDb.InsertSummaries | tools/summarize_test_results.py:598-622 | the loop succeeds exactly when every value is a `float()`, and inserts one summary row per group |
| SummarizeDb.CloseLast | tools/summarize_test_results.py:619-622 | the last group's row is inserted when there is one |
| SummarizeDb.Absorb | tools/summarize_test_results.py:599-617 | one pass of the loop |
| SummarizeDb.CloseGroup | tools/summarize_test_results.py:603-606 | a group's row is inserted |
| SummarizeDb.RunsFlatten | tools/summarize_test_results.py:598-622 | the groups concatenated are the rows: each row is in exactly one group, in order |
| SummarizeDb.RunsUniform | tools/summarize_test_results.py:603-615 | every row of a group has the key of its first row |
| SummarizeDb.RunsMaximal | tools/summarize_test_results.py:603-615 | adjacent groups have different keys |
| SummarizeDb.RunsCover | tools/summarize_test_results.py:598-622 | every row's key is the key of some group |
| SummarizeDb.RunsLastRow | tools/summarize_test_results.py:619-622 | the last row closes the last group |
| SummarizeDb.SortedClustered | tools/summarize_test_results.py:594 | rows in `ORDER BY experiment, side, field` are clustered by key |
| SummarizeDb.QueryClustered | tools/summarize_test_results.py:594 | the query returns the selected rows, each once, clustered by key |
| SummarizeDb.OneRunPerKey | tools/summarize_test_results.py:603-615 | CORRECTED: on clustered rows, the grouping by key gives one group per key, holding every row with that key |
| SummarizeDb.OneSummaryRowPerKey | tools/summarize_test_results.py:598-622 | CORRECTED: one summary row per (experiment, field, side), counting all of that key's rows |
| SummarizeDb.SummarizeTable | tools/summarize_test_results.py:577-629 | CORRECTED: `Summarize` leaves in the table the rows of the grouping by key, over clustered query rows |
| SummarizeDb.FieldRunsAreKeyRuns | tools/summarize_test_results.py:603-609 | AS WRITTEN vs CORRECTED: where only a change of field can change the key between adjacent rows, the two groupings agree |
| SummarizeDb.MergedAcrossExperiments | tools/summarize_test_results.py:603-609 | AS WRITTEN: two adjacent rows of different experiments with the same side and field make one summary row counting 2, where the grouping by key makes two |
| SummarizeDb.KeyCellsKey | tools/summarize_test_results.py:585-588 | two rows have the same key cells exactly when they have the same key |
| Report.FirstOfEach | tools/summarize_test_results.py:637 | `set(files_to_read)`: every path found is kept once, and only files found are kept |
| Report.ListingSorted | tools/summarize_test_results.py:637 | files are read in path order, every path found is read, and each only once |
| Report.Envs | tools/summarize_test_results.py:719 | one entry per parameter set gathered, in the order its key was first seen |
| Report.Numbers | tools/summarize_test_results.py:734 | when every value is a number, one number per value |
| Report.FieldSteps | tools/summarize_test_results.py:721-739 | without `full_results`, one field gives exactly one row |
| Report.HeaderLine | tools/summarize_test_results.py:677-718 | one cell per header name |
| Report.Line | tools/summarize_test_results.py:716-739 | a row's values in header order, each the dict's value or the default "" |
| Report.DictWriter.constructor | tools/summarize_test_results.py:716 | a writer with its field names and `extrasaction`, and nothing written yet |
| Report.DictWriter.WriteHeader | tools/summarize_test_results.py:717 | the header line is written |
| Report.DictWriter.WriteRow | tools/summarize_test_results.py:729-739 | the row's line is written, or nothing when `writerow` raises |
| Report.RunMain | tools/summarize_test_results.py:632-739 | the output is `MainOutput` for the `extrasaction` given: `Raise` (the default) is `MainAsWritten`, `Ignore` is `MainCorrected` |
| Report.WriteReport | tools/summarize_test_results.py:667-739 | everything after the files are read computes `Written` |
| Report.Collect | tools/summarize_test_results.py:637-662 | the loop over `sorted(set(files))` computes `Gather` |
| Report.CollectFile | tools/summarize_test_results.py:638-662 | one file of that loop |
| Report.AddSamples | tools/summarize_test_results.py:658-662 | each value is appended to its field's list |
| Report.FieldUnion | tools/summarize_test_results.py:667-675 | `full_field_set` is built per side |
| Report.AddFields | tools/summarize_test_results.py:673-675 | one parameter set's fields are added |
| Report.WriteEnvs | tools/summarize_test_results.py:719-739 | every parameter set's rows, until one raises |
| Report.WriteEnv | tools/summarize_test_results.py:720 | the client's rows, then the server's |
| Report.WriteSide | tools/summarize_test_results.py:721 | one side's fields, in sorted order |
| Report.WriteField | tools/summarize_test_results.py:722-739 | one field's rows |
| Report.WriteSummary | tools/summarize_test_results.py:736-739 | the paths and the statistics added, and the row written |
| Report.WriteValues | tools/summarize_test_results.py:730-733 | one row per value |
| Report.EmitSingle | tools/summarize_test_results.py:733-739 | writing one row adds its line, unless `writerow` raises |
| Report.EmitConcat | tools/summarize_test_results.py:719-739 | writing two lists of rows is writing the first, then the second unless the first raised |
| Report.GatherOk | tools/summarize_test_results.py:637-662 | under every parameter set, the fields listed per side are those with values, and the set holds `colocated` |
| Report.GuessColocated | tools/utils.py:169-190 | every parameter set that `guess_test_parameters` finds holds `colocated` |
| Report.SamplesAfter | tools/summarize_test_results.py:658-662 | reading a file appends to each field the values the file yields for it, in order, each with the file's name, and nothing else |
| Report.AbsentCountsZero | tools/summarize_test_results.py:722 | a field has no values exactly when the set never saw it, so its row counts 0 |
| Report.ColumnsAreUnion | tools/summarize_test_results.py:667-675 | `sorted(full_field_set[dirn])` lists, once each and in order, the fields some parameter set saw on that side |
| Report.SideStepsAt | tools/summarize_test_results.py:721-739 | without `full_results`, each field gives exactly one step |
| Report.EnvStepAt | tools/summarize_test_results.py:720-739 | without `full_results`, a parameter set gives one step per column, the client's first |
| Report.AllStepsConcat | tools/summarize_test_results.py:719 | the rows of `main` are the parameter sets' blocks in turn |
| Report.AllStepsLength | tools/summarize_test_results.py:719-739 | without `full_results`, one step per parameter set and column |
| Report.StepAt | tools/summarize_test_results.py:719-739 | step `k` of set `i` is its row for column `k` |
| Report.SummaryRowSays | tools/summarize_test_results.py:726-739 | a numeric field's row names its side and field and counts its values |
| Report.StatsRow | tools/summarize_test_results.py:724-739 | the summary row: the parameters, then side, field, paths and the entries of `stats`, which name neither side nor field |
| Report.KeyedLikeStats | tools/summarize_test_results.py:738 | a record keyed like `stats` names neither the side nor the field, and "count" only first |
| Report.EmitIgnore | tools/summarize_test_results.py:716-739 | with "ignore", every row is written as the values of its header columns |
| Report.HeaderPositions | tools/summarize_test_results.py:677-714 | where the header puts the side, the field and the count |
| Report.Rectangular | tools/summarize_test_results.py:632-739 | CORRECTED (`Ignore`): without `full_results` and with numeric values, the run completes and writes the header plus one row per parameter set and column |
| Report.WrittenRow | tools/summarize_test_results.py:716-739 | CORRECTED: line `1 + j` is the row of step `j`, filled from the step's dict |
| Report.RowAt | tools/summarize_test_results.py:719-739 | the row for column `k` of set `i` names its side and field and counts that field's values |
| Report.LineSays | tools/summarize_test_results.py:716-739 | a row whose dict holds side, field and count shows them in the header's columns |
| Report.AllStepsRows | tools/summarize_test_results.py:734-739 | every step is a row when every value is a number |
| Report.AllStepsCarry | tools/summarize_test_results.py:724-725 | every row holds every parameter of its set |
| Report.EmitRaise | tools/summarize_test_results.py:716 | with "raise", rows that all hold a key outside the header write nothing, and the run ends at the first |
| Report.ColocatedNotAHeader | tools/summarize_test_results.py:677-714 | the header has no `colocated` column |
| Report.AsWrittenHeaderOnly | tools/summarize_test_results.py:716-739 | AS WRITTEN (`Raise`): `main` writes the header and no row, and completes only when there is no row to write |
| Report.AsWrittenRaises | tools/summarize_test_results.py:716-739 | AS WRITTEN: without `full_results`, `main` raises as soon as one file yields one value |
| Combine.SchemasKeep | tools/combine.py:57-67 | the schema loop only adds empty tables made from the source's SQL, and keeps every destination table |
| Combine.SchemasComplete | tools/combine.py:57-67 | when the loop runs to the end, every source table is in the destination with the source's SQL |
| Combine.SchemasNeverRaise | tools/combine.py:59-67 | source table names are distinct, so the loop never creates a table twice |
| Combine.SchemasStopped | tools/combine.py:61-64 | once the loop has stopped on a mismatch, later tables change nothing |
| Combine.SchemasIdle | tools/combine.py:57-67 | a destination that already has every source table with the same SQL is unchanged |
| Combine.ParamsIndex | tools/combine.py:77-81 | every destination experiment's serialisation is a key of `params`, and every key names a row with that serialisation |
| Combine.MapRowsTracked | tools/combine.py:87-110 | the experiment loop keeps `params` indexed and `mapper` mapping each source experiment to one with the same serialisation, and inserts no repeat |
| Combine.MapRowsKnown | tools/combine.py:97-102 | with every source experiment already known, the loop inserts nothing and only maps rowids |
| Combine.KnownAfterMapping | tools/combine.py:97-110 | after the loop, every source experiment's serialisation is among the destination's |
| Combine.Remap | tools/combine.py:33-34 | succeeds exactly when the row has an integer at `index` that `mapper` holds; then only that entry changes, to the mapped id |
| Combine.RemapAll | tools/combine.py:32-36 | one rewritten row per row, or None |
| Combine.RemapAllAt | tools/combine.py:32-36 | all rows succeed exactly when each does, and row `i` of the result is row `i` rewritten |
| Combine.CopiedAppends | tools/combine.py:19-42 | a copy appends the source rows to the table of that name, in order and one for one, each unchanged but for its experiment entry, and leaves every other table alone |
| Combine.MergeStopsEarly | tools/combine.py:57-71 | when `merge` stops at the schema check or for want of experiments, no row has been copied |
| Combine.MergedLinks | tools/combine.py:45-121 | after a completed `merge`, `data` holds its old rows, then the source's rows in order, each pointing at a destination experiment with the same serialisation as its source experiment |
| Combine.TransferLinks | tools/combine.py:84-121 | the same, after the schema check |
| Combine.DependentsLinks | tools/combine.py:115-121 | copying the dependent tables adds the source's rows to `data` through `mapper`, and leaves `experiments` untouched |
| Combine.CopiedAgain | tools/combine.py:19-42 | a copy that went through goes through again into a table with the same columns |
| Combine.TransferShape | tools/combine.py:84-121 | a completed transfer only adds rows |
| Combine.TransferTwice | tools/combine.py:84-121 | a completed transfer, repeated on its result, completes again and adds no experiment |
| Combine.MergeTwice | tools/combine.py:45-121 | merging the same source twice adds no experiment the second time, and appends the source's data rows again, each linked as the first time |
| Combine.MergeStores | tools/combine.py:45-121 | the method ends in `MergeOf`: the destination's committed content and how `merge` ended |
| Combine.CreateTables | tools/combine.py:55-67 | the schema loop computes `Schemas`: a mismatch stops it, a missing table is created |
| Combine.ReadParams | tools/combine.py:77-81 | the loop computes `ParamsOf` |
| Combine.MapExperiments | tools/combine.py:84-110 | the loop computes `MapRows`; it fails exactly when an insert raised |
| Combine.MapOne | tools/combine.py:87-110 | one pass of that loop computes `MapRow` |
| Combine.CopyTable | tools/combine.py:19-42 | it succeeds exactly when `Copied` does, leaving its content; the committed content is unchanged |
| Combine.CopyRows | tools/combine.py:30-42 | the loop rewrites and batches every row, and fails exactly when a row does not rewrite or fit |
| Combine.Feed | tools/combine.py:32-39 | one pass of the loop |
| Combine.Flush | tools/combine.py:38-42 | the waiting rows are inserted |
| Combine.BatchFails | tools/combine.py:37-42 | a batch that does not fit means the rows rewritten so far do not fit |
| Combine.RemapFits | tools/combine.py:32-42 | a prefix that does not fit means the whole table does not |

## Left out

- Sql.SqlType: every `Int` cell gives `INT`. In Python 2, `type(v) is int` is false for a `long`, such as `int()` of a number beyond `sys.maxint`; such an entry gets no column and is only logged (tools/utils.py:206-213). The model's integers are unbounded and do not tell `int` from `long`.
- Statistics.Entries: stores the variance, not its square root, under "stdev" (tools/summarize_test_results.py:761). For `[0.0, 4.0]` the source gives 2.0 and the model 4.0. Dafny's reals have no square root.
- Statistics.Stats: `str()` of a number becomes the cell `Shown(n)`, which keeps the number. The text rendered (digits, `repr` rounding) is not modelled.
- Statistics.Percentile: `numpy.percentile` is modelled for whole percentages with linear interpolation over exact reals. Floating-point rounding is not modelled.
- Report.Envs: lists parameter sets in the order first seen, where the source iterates `sorted(values.values())` (:719). Python 2 orders dicts there by an unspecified rule.
- Report.WriteEnvs: writes parameter sets in the order of `Report.Envs`, not sorted.
- Report.WriteSummary: `",".join(env["paths"])` joins a set, whose order is arbitrary (:737). The model joins the paths in the order first added.
- TcptraceSummary.ReadSummary: `values.items()` (:110) is modelled in the order keys were first seen. Python 2 dict order is arbitrary.
- CreateDb.CreateDatabase: the key `json.dumps(params)` (:549) is compared as a record in insertion order. Two dicts that differ only in key order are not told apart, but `guess_test_parameters` always builds its keys in one order.
- Report.GatherFile: the key `json.dumps(test_parameters, sort_keys=True)` (:647) is compared as a record too. This gives the same grouping, because every parameter set is built with its keys in one order.
- CreateDb.CreateDatabase: `find_files` (:493-505) becomes a given `seq<ResultFile>`. The `os.walk` order and the `fnmatch` filter are not modelled.
- Report.RunMain: takes the files as a `seq<ResultFile>` too, so `find_files` is not modelled here either.
- Dispatch.ReadWith: the powstream reader runs `owstats`. Its output is an unconstrained `external: Yield` carried by each file.
- Broken.CheckTestBroken: the `os.walk` for `ab.out` (tools/utils.py:26-30) is the parameter `abFile`, the lines of the file found or None.
- Store.Database: SQLite's type affinity and conversions are not modelled. A value is stored and read back as the cell it was.
- Store.Database.Insert: rowids are the row's position plus one, so a table with deleted rows (gaps) is not modelled.
- Text.PyFloat: accepts an optional sign, decimal digits with an optional fraction, and an optional exponent. `inf`, `nan`, `infinity` and overflow to infinity are not modelled. Whitespace is handled by the callers' `strip`.
- TcptraceLines.Coerce: a value of `inf` or `nan` gives 0 in the model, where Python gives a float.
- SummarizeDb.FloatOf: a stored text `inf` or `nan` is refused in the model, where Python converts it.
- Combine.CopyTable: on the raise path, the rows inserted before the error are not stated. The caller's connection goes away uncommitted, so they do not reach the committed content.
- Combine.MapExperiments: the same holds on the raise path.
- Combine.CopyRows: the same holds on the raise path.
- `SysdigRawReader` (:420-447) is left out: `get_file_reader` never returns it (its rules are commented out), and it runs `sysdig` as a subprocess.
- `tools/igor.py` is not part of this model.
- `combine.py`'s `__main__` (:124-149) is left out: it only parses arguments and calls `merge` per file.
- `main`'s and `create_db`'s command-line handling, logging, `exception_hook` and file opening are left out. They are I/O.
- Exceptions are not told apart by class. A raise ends the run, and what was committed by then is what remains.
- Integers are unbounded; Python 2 promotes to `long` too, so nothing wraps.

## Findings

| source | as written | input that shows it | evidently intended | confidence | as-written member | corrected member |
|---|---|---|---|---|---|---|
| tools/utils.py:97-150 | the walk stops on `/` only; `os.path.dirname("//x")` is `//`, and `dirname("//")` is `//`, so the loop never ends | `guess_test_parameters("//x")` | stop at the root however it is spelled, and return no parameters | not executed | Inference.DoubleSlashHangs (on `Inference.GuessAsWritten`) | Inference.GuessTestParameters (ensures `r == Guess(fname)` and `r != Hangs`) |
| tools/summarize_test_results.py:568-570 | `conn.commit()` runs only inside `if len(values) > 0`, so experiment rows inserted after the last data batch are never committed | one file under a new parameter set whose reader yields no triple | commit at the end whether or not rows remain | not executed | CreateDb.LostExperiment (on `CreateDb.LoadAsWritten`) | CreateDb.CreateDatabase (ensures the result is `CreateDb.Load`), with CreateDb.LoadResult |
| tools/summarize_test_results.py:603,609 | a group ends only when `field` changes, so rows of two experiments (or two sides) with the same field merge into one summary row | rows `(e1, f, s, v1)`, `(e2, f, s, v2)` with `e1 != e2`, adjacent in the query's order | one summary row per (experiment, side, field) | not executed | SummarizeDb.MergedAcrossExperiments (on `SummarizeDb.SummarizeAsWritten`, which `SummarizeDb.SummarizeDatabase` implements) | SummarizeDb.OneSummaryRowPerKey and SummarizeDb.SummarizeTable (on `SummarizeDb.Summarize`) |
| tools/summarize_test_results.py:716 | `csv.DictWriter` keeps its default `extrasaction='raise'`, while every row holds `colocated`, the stress counts, `hyperthreading` and `outliers`, which the header lacks | any run where one file yields one value, without `full_results` | write the header's columns and leave out the other keys | not executed | Report.AsWrittenHeaderOnly and Report.AsWrittenRaises (on `Report.MainAsWritten`) | Report.Rectangular and Report.WrittenRow (on `Report.MainCorrected`) |
