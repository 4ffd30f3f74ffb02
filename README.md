# nummi ledger core in Dafny

This project models the core of `nummi`, a personal ledger kept as plain text
files, and proves properties of that model. It covers four parts:

- **Ledger (`src/db.rs`).** The one-line entry format (`Entry::from_line`,
  `Entry::to_line`) and the set of currencies a ledger uses. It also covers
  reading one ledger file up to its first blank line, and reading every `.txt`
  file of a directory tree in path order. That tree is found by the
  depth-first, stack-based `Find` iterator.
- **Monthly series (`src/plot.rs`).** The `DateSeries` month iterator and
  `gen_data`. `gen_data` cuts an entry stream into calendar months, converts
  each month to euro, and writes one text row per month with money in, money
  out, net and running sum.
- **Exchange-rate cache (`src/cache.rs`).** The `currencies` file of
  `"<code> <rate>"` lines, its staleness rule (one day), and the
  refresh-then-read step that fills `Cache::currencies`.
- **Rate download (`src/net.rs`).** The mapping `parse_csv` applies to the
  European Central Bank's reference-rate CSV, from headers and first record to
  currencies.

Modules:

- `Results`: `Option`, `Result`.
- `Text`: split and join at a separator, line splitting, trimming, ASCII lower case.
- `Dec`: exact decimals standing in for `dec::Decimal`.
- `Fs`: a finite file tree and the `Find` walk.
- `Db`, `Plot`, `Cache`, `Net`: the four source files.
- `PlotExample`: the `gen_data` unit test, proved.

Panics in the Rust code (`unwrap`, `expect`, out-of-range slices) become
`Err` values, so every failing input has a stated outcome. Amounts are exact:
`Dec.Decimal` is the numeral as written, and sums are `real`.

Where the documented behaviour of the program and its code disagree, the model
follows the code:

- **Empty line.** An empty line fails with a missing amount, not a missing
  date. `split` gives an empty date field and no second field.
- **File order.** `read_db` sorts the file paths ascending before reading
  them, not newest first.
- **Amount length.** An amount field needs only three bytes, for its
  currency, before the decimal is parsed.

## Model

| member | source | states |
|---|---|---|
| Db.FromLine | src/db.rs:16-34 | A parsed entry's date is the line's first space-free field, its tag is not a space, and its text is a suffix of the line. |
| Db.FromLineFields | src/db.rs:16-34 | For a line that parses: the date is field 0, and the currency is the last three bytes of field 1. The rest of field 1 parses as the amount, the tag is the first byte of field 2, and the text is the line from byte `|date| + |amount| + 4` on. |
| Db.FromLineAccepts | src/db.rs:16-34 | Conversely, a line with three fields, a long enough amount field whose numeral parses, and a non-empty tag field parses to exactly those fields, provided it reaches the text's offset. |
| Db.FromLineWritten | src/db.rs:16-34 | A line `date amount tag text` with space-free date and amount, at least 3 bytes of amount and a valid decimal parses to exactly that entry. The text may contain spaces because it is cut at byte `|date|+|amount|+4`. |
| Db.FromLineToLine | src/db.rs:36-45 | `from_line(to_line(e))` gives `e` back with its amount rounded to two places, and exactly `e` when the amount already has two places. |
| Db.FromLineLayout | src/db.rs:32 | A line that parses, with a one-byte tag field, is its date, amount field, tag and text joined by single spaces. |
| Db.FromLineNoSpace | src/db.rs:19 | A line without a space, including the empty line, fails with `MissingAmount`. |
| Db.FromLineTwoFields | src/db.rs:20-21 | With only two fields, an amount shorter than 3 bytes fails with `ShortAmount`, otherwise the missing tag fails. |
| Db.FromLineEmptyTag | src/db.rs:21 | An empty third field (two spaces in a row) fails with `MissingTag`. |
| Db.FromLineBadAmount | src/db.rs:24-25 | An amount whose part before the currency is not a decimal fails with `InvalidDecimal` of that part. |
| Db.FromLineNoText | src/db.rs:32 | A line that ends right after the tag fails: the text offset is past its end. |
| Db.UniqueCurrencies | src/db.rs:47-54 | The result has no repeats and holds exactly the currencies that occur in the entries. |
| Db.LedgerLines | src/db.rs:62-63 | The lines kept are a prefix with no empty line, and the first line not kept is empty. |
| Db.TrailerIgnored | src/db.rs:63 | Everything after the first blank line is ignored. |
| Db.ParseAll | src/db.rs:80 | Collecting results: `Ok` with every value in order, or the error of the first failing element with all before it `Ok`. |
| Db.ParseAllFirstError | src/db.rs:80 | When element `i` is the first error, the collection fails with it. |
| Db.ParseLinesOk | src/db.rs:62-65 | Parsing a file's lines succeeds exactly when every line parses, and then gives one entry per line in order. |
| Db.ParseLinesFirstError | src/db.rs:62-65 | The first line that does not parse decides the error. |
| Db.AppendParsed | src/db.rs:62-65 | The loop that appends parsed lines to `v` gives `v` followed by the parsed ledger lines, or the first error. |
| Db.ReadDbFile | src/db.rs:56-66 | A read failure is an I/O error. Otherwise the file's entries are appended to `v`. |
| Db.PathLeTotal | src/db.rs:73 | The path order used by `sort` is total. |
| Db.PathLeAntisymmetric | src/db.rs:73 | The path order is antisymmetric. |
| Db.PathLeTransitive | src/db.rs:73 | The path order is transitive. |
| Db.SortByPath | src/db.rs:73 | The result is sorted by path and is a permutation of the input. |
| Db.SortedUnique | src/db.rs:73 | Two path-sorted permutations of the same distinct-path list are equal, so the sort's result is determined. |
| Db.LastDot | src/db.rs:76 | The position of the last `.` of a name, or its length when there is none. |
| Db.ThenAssociative | src/db.rs:77-81 | Appending the entries of successive files is associative. |
| Db.ReadFilesAppend | src/db.rs:74-81 | Reading a list of files is reading its first part and then its second, stopping at the first error. |
| Db.ReadFilesSkips | src/db.rs:76 | A file whose extension is not `txt` contributes nothing. |
| Db.CollectFiles | src/db.rs:71-72 | Collecting the walk fails exactly when it reported an error; otherwise it gives every file found, in walk order. |
| Db.LedgerUnlistable | src/db.rs:71-72 | If any directory cannot be listed, `read_db` fails with an I/O error. |
| Db.LedgerReadsTreeInPathOrder | src/db.rs:68-82 | With every directory listable, `read_db` reads exactly the files of the tree, sorted by path, whatever order the walk found them in. |
| Db.LedgerReadsWellFormedTree | src/db.rs:68-82 | The same for every tree in which no directory lists two entries under one name, with no further condition on paths. |
| Db.CollectWalk | src/db.rs:71-72 | Driving `Find` to the end and collecting gives `CollectFiles` of the whole walk. |
| Db.ReadTxt | src/db.rs:76-79 | Reading one found file: skipped unless `.txt`, an I/O error if it cannot be opened, otherwise its entries appended. |
| Db.ReadAll | src/db.rs:74-81 | The loop over the sorted files gives `ReadFiles` of them. |
| Db.ReadDb | src/db.rs:68-82 | `read_db` as a method gives the `Ledger` of the tree. |
| Fs.PushChildren | src/db.rs:96-100 | Pushing a directory's children onto the stack puts their walks ahead of the rest, last child first. |
| Fs.Find.constructor | src/db.rs:90-94 | The stack holds the root alone, and what remains to be yielded is the walk of the root. |
| Fs.Find.Next | src/db.rs:106-116 | Yields `None` exactly when nothing remains. Otherwise it yields the first remaining item, and what remains is the rest. |
| Fs.FoundAppend | src/db.rs:106-116 | Files found and errors reported distribute over concatenated walks. |
| Fs.WalkFindsAllFiles | src/db.rs:106-116 | With every directory listable, the walk reports no error and finds every file of the tree once. |
| Fs.WellFormedPathsDistinct | src/db.rs:96-100 | Since a child's path is its parent's path joined with its name, a tree in which no directory lists two entries under one name has no two files with the same path. |
| Fs.WalkReportsUnlistable | src/db.rs:111-112 | A directory that cannot be listed makes the walk report an error. |
| Dec.ParseShow | src/dec.rs:10-15 | Parsing a decimal's printed form gives the decimal back. |
| Dec.DivRoundNearest | src/dec.rs:27 | Rounding to a precision picks the nearest value, ties to even. |
| Dec.Round2Exact | src/dec.rs:27 | Rounding a value that already has at most two places keeps its value. |
| Dec.ParseFormat2 | src/dec.rs:27 | Parsing `{:.2}` output gives the value rounded to two places. |
| Text.JoinSplit | src/db.rs:17 | Joining the split fields with the separator gives the line back. |
| Text.SplitJoin | src/db.rs:17 | Splitting the join of separator-free fields gives the fields back. |
| Text.LinesUnlines | src/db.rs:62 | Splitting newline-terminated plain lines into lines gives the lines back. |
| Text.TrimCuts | src/net.rs:27 | `trim` removes exactly a white-space prefix and suffix. |
| Plot.NextMonthArith | src/plot.rs:23-27 | The next date is the 1st of the following month: year plus month/12, month mod 12 plus 1. |
| Plot.NextMonthStep | src/plot.rs:21-29 | The next date is one calendar month later, on day 1, and strictly after the current date. |
| Plot.DateSeries.constructor | src/plot.rs:13-15 | The series starts at the given date. |
| Plot.DateSeries.Next | src/plot.rs:21-29 | Yields the current date and advances to the 1st of the next month. |
| Plot.SeriesShape | src/plot.rs:53 | The months taken while `<= end`: one per calendar month from the start through `end`'s month, each on or before `end`. |
| Plot.SeriesThirteenMonths | src/plot.rs:122-141 | From 2020-04-01 to 2021-04-01 the series is the thirteen 1sts listed in the test. |
| Plot.CollectSeries | src/plot.rs:122-125 | Taking `DateSeries` items while `<= end` gives `Series`. |
| Plot.TotalWithConversionSpec | src/plot.rs:67-68 | Succeeds exactly when every currency has a rate. Money in is never negative and money out never positive, and their sum is the net euro value. Otherwise it fails with `NoRate` of the first currency without a rate. |
| Plot.TotalByCurrency | src/plot.rs:67-68 | With non-negative rates, money in is the sum over currencies of rate times that currency's summed positive amounts, and money out likewise for the negative amounts. |
| Plot.RoundCentsNearest | src/plot.rs:73 | Printing with two places uses the nearest cent, ties to even. |
| Plot.Amount2Reads | src/plot.rs:73 | A printed amount reads back as its value in cents. |
| Plot.Amount2Whole | src/plot.rs:73 | A whole amount prints as its integer followed by `.00`. |
| Plot.RowTextFields | src/plot.rs:71-75 | A row prints as `year-MM pos neg net sum`, month zero-padded, amounts with two places. |
| Plot.GroupSpan | src/plot.rs:55-66 | A month's group is the longest run of `Ok` entries of that month from the current position. |
| Plot.MonthStep | src/plot.rs:53-75 | One loop round writes the month's row and goes on with the next month, the position after the group and the new sum. |
| Plot.MonthRowsShape | src/plot.rs:53-75 | The rows have exactly the series' dates. Each row's sum is the previous sum plus its net, and in and out have their signs. |
| Plot.MonthRowsErrorFrom | src/plot.rs:47-68 | The series only fails with a missing rate or with an error the stream itself holds. |
| Plot.CumulativeTotal | src/plot.rs:69-70 | The last running sum is the start plus all the nets. |
| Plot.MonthRowsConserve | src/plot.rs:53-70 | On a date-sorted error-free stream whose currencies all have rates and which ends by `end`, the series succeeds. Its final sum is the net euro value of all entries, none lost or counted twice. |
| Plot.GenRowsConserve | src/plot.rs:40-78 | On a date-sorted, error-free, fully rated stream ending by `end`, the rows succeed and the last running sum is the net euro value of the whole stream. |
| Plot.GroupIsMonth | src/plot.rs:55-66 | On a date-sorted stream, the group taken at a month's first entry is exactly the stream's entries of that month. |
| Plot.MonthHead | src/plot.rs:54-68 | At a month's first position, the month's total succeeds and is `total_with_conversion` of all the stream's entries of that month. |
| Plot.MonthRowsByMonth | src/plot.rs:53-75 | On a date-sorted, error-free, fully rated stream, each row's in and out are the converted totals of exactly the entries of that row's month. |
| Plot.GenRowsByMonth | src/plot.rs:40-78 | The same for `gen_data`'s rows: row k's in and out are `total_with_conversion` of the stream's entries in row k's month. |
| Plot.TakeMonth | src/plot.rs:54-66 | The peek loop stops after the month's group, and `filtered` holds exactly its entries. |
| Plot.ReadMonth | src/plot.rs:54-68 | Reading one month gives the month's total and the position after its group, or its error. |
| Plot.GenData | src/plot.rs:40-78 | `gen_data` as a method gives `GenDataSpec`. This is the text of all rows, `Ok("")` on an empty stream, or the first error with no partial output. |
| PlotExample.TestRowsComputed | src/plot.rs:144-168 | On the test's five entries and rates, the rows are the four of January to April 2020. |
| PlotExample.TestOutput | src/plot.rs:143-176 | On the test's input, `gen_data` writes exactly the four expected lines. |
| PlotExample.JanuaryRow | src/plot.rs:170 | January's row prints as the test expects. |
| PlotExample.FebruaryRow | src/plot.rs:171 | February's row, with no income, prints as the test expects. |
| PlotExample.MarchRow | src/plot.rs:172 | March's row prints as the test expects. |
| PlotExample.AprilRow | src/plot.rs:173 | April's row, with no entries, carries the running sum forward. |
| PlotExample.TestTotal | src/plot.rs:147-164 | Over the test's five entries, money in is 1400 and money out is -1500 euro. |
| Cache.ParseCurrency | src/cache.rs:78-89 | A parsed line has at least 3 bytes, and its currency is the first 3 bytes of the first field. |
| Cache.ParseCurrencyFields | src/cache.rs:78-89 | `name rate ...` parses to the first 3 bytes of `name` and the decimal `rate`. It fails with `ShortName` when `name` is under 3 bytes and with `InvalidRate` when `rate` is not a decimal. |
| Cache.ParseCurrencyNoRate | src/cache.rs:79-80 | A line without a space has an empty rate, so it fails. |
| Cache.ParseCurrencyLine | src/cache.rs:67-89 | A written currency line parses back to the same currency. |
| Cache.ReadTextSpec | src/cache.rs:72-96 | Reading succeeds exactly when every line parses. It then gives one currency per line in order plus `eur` at rate 1 last; otherwise it fails with the first bad line's error. |
| Cache.ReadWritten | src/cache.rs:57-96 | Reading the text that `update_currencies` writes gives the written currencies followed by `eur`. |
| Cache.ReadCurrenciesFrom | src/cache.rs:72-96 | The line loop of `read_currencies` computes `ReadText`. |
| Cache.StaleMonotone | src/cache.rs:46-51 | A file that is stale at some age stays stale when older. |
| Cache.StaleAfterADay | src/cache.rs:46-55 | With `CURRENCIES_MAX_AGE`, a file exactly one day old is fresh and one second older is stale. |
| Cache.Written | src/cache.rs:57-70 | Writing succeeds exactly when the file can be opened for writing: a missing file whose directory and file can be created, or a present file that opens for writing. It then leaves a present file of age 0 holding exactly the lines for the currencies. |
| Cache.FailedFetchKeepsFile | src/cache.rs:38-39 | A failed fetch never changes the file. When a refresh is due, the fetch error is the result. |
| Cache.FreshFileKept | src/cache.rs:38 | Unforced, a file no older than one day is kept as it is and nothing is fetched. |
| Cache.RefreshWrites | src/cache.rs:38-66 | When forced or stale, a successful fetch rewrites the file with the fetched currencies exactly when the file can be written; otherwise the refresh fails with the `create_dir` or `open` error. |
| Cache.StaleReadOnlyFails | src/cache.rs:38-66 | A stale file that does not open for writing is fetched for, and then the refresh fails with the `open` error. |
| Cache.RefreshedFileReads | src/cache.rs:38-42 | After a due refresh of a file that can be written and read, reading the file gives the fetched currencies followed by `eur`. |
| Cache.RefreshedFileExists | src/cache.rs:38-40 | After a successful refresh step the file exists. |
| Cache.Reload | src/cache.rs:42 | Opening a missing file is `NotFound`, and a file that does not open for reading gives its open error. A successful read is of a present, readable file and ends with `eur`. |
| Cache.CurrencyFile.constructor | src/cache.rs:37 | The file starts in the given state. |
| Cache.CurrencyFile.Update | src/cache.rs:57-70 | The write loop leaves the file as `Written` describes. For a file that cannot be created or opened for writing it fails with that error and leaves the file unchanged. |
| Cache.CurrencyFile.WriteLines | src/cache.rs:62-70 | After the file is opened with truncation, it holds exactly one line per currency, in order, and stays writable with its read access unchanged. |
| Cache.Cache.constructor | src/cache.rs:25-29 | A new cache has no currencies. |
| Cache.Cache.ReadCurrencies | src/cache.rs:31-43 | A failed refresh returns its I/O error with file and `currencies` unchanged. Otherwise the file is the refreshed one: a successful read sets `currencies` to it and a failed read leaves `currencies` unchanged. |
| Net.NormalizeForm | src/net.rs:27 | A normalised header has no upper-case letter and no white space at either end. |
| Net.Columns | src/net.rs:28-29 | Never more columns than headers or fields, and every column kept has a wanted header. |
| Net.ColumnsFromPositions | src/net.rs:27-29 | Every column is the normalised header and the field of one position within both rows. |
| Net.ColumnsKeepWanted | src/net.rs:28-29 | Every position within both rows with a wanted normalised header gives a column. |
| Net.ColumnsSnoc | src/net.rs:28-29 | Columns keep the order of the rows. |
| Net.ColumnsExtraFields | src/net.rs:28 | Fields beyond the last header are ignored. |
| Net.ColumnsExtraHeaders | src/net.rs:28 | Headers beyond the last field are ignored. |
| Net.ColumnCurrency | src/net.rs:30-40 | A column converts to the first 3 bytes of its header and the decimal of its trimmed field. It fails with `ShortName` or `InvalidRate` otherwise. |
| Net.ParseCsvSpec | src/net.rs:19-43 | Succeeds exactly when every kept column converts, giving one currency per column in order; otherwise the first failing column's error. |
| Net.ParseCsvNoInput | src/net.rs:22-24 | Unreadable headers are a CSV error, no record is `NoRecord`, and an unreadable record counts as empty. |

## Left out

- **Unit tests.** Only the `gen_data` and `date_series` unit tests are stated
  as lemmas. The `read_currencies` unit test, with 32 rates, is covered by
  `Cache.ReadTextSpec` and not stated for its literal data.
- **Number representation.**
  - **Exact sums.** `dec::Decimal` is an `f64`. The model parses it exactly,
    sums with exact `real`s, and rounds half to even when printing with two
    places. Binary rounding error, and `f64`'s `-0.00`, are not modelled.
  - **Numeral grammar.** Numerals with exponents, `inf` and `nan`, which
    `f64::from_str` also accepts, are not parsed.
- **Rate printing.** `Cache.CurrencyLine` prints a rate with the digits it was
  parsed with; `f64`'s `Display` prints the shortest form (`1.0` becomes `1`).
  Both read back to the same value.
- **Bytes and case.** A `char` stands for one byte. `to_lowercase` is modelled
  for ASCII only, and the panic Rust raises when a slice cuts a multi-byte
  character is not modelled. Invalid UTF-8 in files is not modelled.
- **Dates.**
  - `chrono::NaiveDate` is `Plot.CalDate` with an unbounded year.
  - `Plot.DateSeries.Next` always returns `Some`. `NaiveDate::from_ymd` panics
    outside chrono's year range, and the model has no such limit.
  - The ledger's own `date` stays the string it was written as in `Db.Entry`.
    `Plot.Entry` carries the calendar date `gen_data` reads.
- **`total_with_conversion`.**
  - `db::Entry::total_with_conversion` is not defined in the revision of
    `src/db.rs` the model follows. `Plot.TotalWithConversion` states the behaviour `gen_data` relies on
    at `src/plot.rs:67-68`: each entry's amount is multiplied by its currency's
    rate and summed into money in or money out, and a currency without a rate
    fails.
  - `Plot.TotalWithConversion` converts entry by entry. `Plot.TotalByCurrency`
    proves that, when every rate is non-negative, this equals converting each
    currency's summed money in and summed money out. With a negative rate the
    two forms put that currency's products on different sides; the model
    follows the per-entry form.
- **`Db.UniqueCurrencies`.** The result is in first-occurrence order. Rust's
  `HashSet` order is unspecified, so only distinctness and membership are
  promised.
- **The file system.**
  - **The tree.** It is a finite tree value (`Fs.Node`). Symbolic links,
    changes during the walk, and `is_dir` failures are not modelled.
  - **Unlistable directories.** A directory that cannot be listed pushes
    nothing. `read_dir` may push some entries before the error; that is not
    modelled.
  - **Sorting.** `Db.ReadDb` sorts with the functional `Db.SortByPath`, not in
    place. The result is the same, and `Db.SortedUnique` shows that any sorted
    permutation is.
- **Read errors inside a file.** A line-level I/O error in
  `BufRead::lines` while reading the currency file is not modelled. The file
  is read whole, so the only I/O errors in reading are those of `File::open`:
  a missing file, an entry whose metadata cannot be read, and a file whose
  `read` access is denied.
- **`Cache.CurrencyFile.Update`.**
  - It writes all lines or nothing. A partial write after some lines succeed
    is not modelled.
  - For a missing file, `create_dir` of the cache directory and the `open`
    that creates the file are one outcome, the `create` access of `Absent`.
    Which of the two calls failed is not told apart.
- **`Cache.CacheStale`.** The clock and the file's modification time become
  the file's age, rounded up to whole seconds. Because `max_age` is whole
  seconds, `age > maxAge` is exactly the test
  `duration_since(...) > Duration::new(max_age, 0)` at `src/cache.rs:48-51`. A modification time in the future, which makes
  `duration_since` panic, is not modelled.
- **`Cache.ReadCurrencies`.** The fetch is passed in as its result value
  rather than as a function. `Cache.ReadCurrencies` only uses it when a
  refresh is due, so it captures the same behaviour.
- **Not modelled.**
  - `cache::dir` reads environment variables and is outside this model.
  - `net::fetch_currencies` does network I/O and ZIP extraction. `parse_csv`
    receives the header row and first record as values, and CSV quoting is the
    `csv` crate's, outside this model.
  - `plot::plot` and `plot_data` run an external plotting program, and
    `src/main.rs` is argument handling and output.
