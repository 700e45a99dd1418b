# Breakout stock screener: a Dafny model of its core

The screener works on daily NSE "bhavcopy" snapshots kept in a `DATA` folder. It has three stages, each modelled here as pure functions over immutable records.

1. **Ingestion and retention routing** (`sort_files_by_date`, `copy_to_subfolders`).
   - A raw download named `BhavCopy_…_YYYYMMDD_…csv` is renamed to `YYYY-MM-DD-NSE-NEW.csv`.
   - Every canonical file is then copied into the recency folders `3 MONTHS`, `1 MONTH` and `5 DAYS`. Each folder is chosen by its own inclusive cutoff: now − 12 weeks, now − 4 weeks and now − 5 days.
2. **The ledger** (`process_files`).
   - The canonical files of a bucket are visited in file-name order.
   - Files lacking a required column are skipped.
   - The EQ and BE rows of the rest are cut down to Symbol, Series, Close, Volume and Date.
   - These rows are appended after the existing ledger rows.
3. **The watchlist engine** (`calculate_and_filter_watchlist`).
   - Each symbol's rate of change (ROC) runs from the first to the last listed snapshot of a bucket.
   - The EQ/BE rows are ranked by ROC both ways, and the top 49 of each ranking are kept.
   - Four reference closes come from the `1 MONTH` folder, and a strict ±1% stability test is applied with OR and with AND.

Modules, one per file:

- `Base`: `Option`, `Result` and sequence helpers (`Filter`, `MapSeq`, `Concat`, `Sublist`).
- `Sorting`: a stable insertion sort over any total preorder.
- `Strings`: `split`/`join` and code-point order.
- `Dates`: civil dates, ordinals, and the `%Y%m%d` and `%Y-%m-%d` formats.
- `FileNames`: raw and canonical names.
- `Retention`: routing and the ingestion pass.
- `Snapshots`: rows and files.
- `Aggregation`: the ledger.
- `Watchlist`: the engine.

The external world is replaced by parameters:

- **The clock.** `datetime.now()` becomes the parameter `now`, counted in microseconds since 0001-01-01T00:00. A file's date is the midnight starting that day.
- **Directory listings.** They become sequences in listing order.
- **File contents.** They become `SnapshotFile` values carrying a name, a set of column headers and rows.
- **The ledger spreadsheet.** It becomes an `Option<seq<LedgerRow>>`, where `None` means it does not exist yet.
- **Missing values.** Pandas NaN (a missing ROC or reference close) is `None`. Every comparison involving it is false, and it sorts last in both orders.

Points where the code's behaviour is easy to misread, and which the model follows:

- **Earliest and latest snapshots.** They are the first and last entries of an unsorted `os.listdir` listing, not the first and last by name (main.py:153-154, main.py:170-171). The four reference files are likewise listing positions -2 to -5 of `1 MONTH` (main.py:162-163, main.py:174-178). The model takes listing positions.
- **Symbols without a ROC.** They stay among the candidates with a NaN `Roc` and sort after every defined value (main.py:196-198, main.py:223). `Watchlist.RankingRocOrder` states this.
- **Output columns.** Only `Roc` and the six listed exchange columns are dropped; `Cmp`, `D1`, `D2` and `D3` stay in the tables (main.py:227-245). `WatchRow` keeps them.
- **The stability test is strict.** A value exactly 1% away from its reference fails (main.py:207-208). For one symbol with closes 50 then 55 and references 55, 54, 54 and 53, the OR test passes on the (Close, Cmp) and (D1, D2) pairs, and the AND test fails because 55 is not below 1.01 × 54. `Watchlist.SingleSymbolExample` states this.
- **Duplicate symbols.** The ROC reads a symbol's first row (main.py:188-192) and the reference lookups read its last (main.py:201-204). The model makes no uniqueness assumption.
- **Uncaught errors.** A missing `1 MONTH` folder (main.py:161-163) and a snapshot lacking a column the engine reads (main.py:186-204, main.py:255-258) raise exceptions nothing catches. The model returns them as `ReferenceFolderMissing` and `MissingColumn`.

## Model

| member | source | states |
|---|---|---|
| `Retention.Route` | main.py:66-86 | A file is copied into a bucket exactly when it is no older than that bucket's window; the three tests are independent `>=` comparisons against the cutoffs |
| `Retention.RouteChain` | main.py:70-86 | Routing always yields one of {}, {3M}, {3M,1M}, {3M,1M,5D}: whatever reaches 5 DAYS also reaches 1 MONTH and 3 MONTHS |
| `Retention.RouteBoundary` | main.py:8-11 | The cutoffs are 5, 28 and 84 days back and inclusive: exactly five days old is in all three buckets, one microsecond older leaves 5 DAYS, older than 84 days reaches none |
| `Retention.RouteNewerFile` | main.py:70-86 | A newer file is routed to at least the buckets of an older one |
| `Retention.RouteLaterClock` | main.py:8-11 | Running later routes a file to at most the buckets an earlier run would |
| `Retention.RouteByDate` | main.py:30-44 | In calendar terms, a file dated no earlier than another reaches at least the other's buckets |
| `Retention.RunRemovesOnlyIngested` | main.py:35-48 | A raw download leaves the root exactly when its date could be read; a failing file is skipped with nothing removed |
| `Retention.RunIngestsAndReports` | main.py:14-48 | Every readable raw download yields its canonical file in the root, and the reported failures are exactly the unreadable raw names, in listing order |
| `Retention.IngestAllRoot` | main.py:16-44 | The ingestion loop removes from the root exactly the raw names it reads a date from and adds exactly their canonical names; no other name changes |
| `Retention.RunRootFrame` | main.py:14-48 | After the pass the root holds exactly the listed names, less the raw downloads whose date was read, plus their canonical names |
| `Retention.RunNameErrors` | main.py:50-63 | A name is reported as unparsable exactly when it was listed, ends in `-NSE-NEW.csv`, carries no readable date and was not ingested as a raw download; no bucket gains such a name |
| `Retention.RunFolders` | main.py:50-63 | After the pass each bucket holds its former contents plus exactly the canonical files of the root whose name dates them inside its window; nothing is removed |
| `Retention.RunKeepsNesting` | main.py:7-63 | If 5 DAYS ⊆ 1 MONTH ⊆ 3 MONTHS held before the pass, it holds after it, whatever the clock |
| `Retention.RunRoutesIngestedFile` | main.py:28-44 | A readable raw download of date d ends up, under its canonical name, in exactly the buckets whose window contains d (besides any it was already in) |
| `FileNames.RawDate` | main.py:29-30 | The date read from a raw name is always a real calendar date |
| `FileNames.RawDateMissingField` | main.py:29 | A raw name has no date field (`IndexError`) exactly when it has fewer than six underscores |
| `FileNames.RawDateOfRendering` | main.py:29-30 | A name whose seventh `_`-field is the `%Y%m%d` rendering of a valid date yields that date, whatever the other fields hold |
| `FileNames.RawDateSound` | main.py:29-30 | A raw name yields date d only when its seventh `_`-field is exactly d's eight-digit rendering |
| `FileNames.CanonicalName` | main.py:31 | The new name always ends in `-NSE-NEW.csv`, so later stages select it |
| `FileNames.CanonicalNameFields` | main.py:31 | The canonical name is the five dash-free fields year, month, day, `NSE`, `NEW.csv` joined by dashes |
| `FileNames.CanonicalRoundTrip` | main.py:56-57 | Reading the first three `-` fields of a canonical name gives back the date it was built from |
| `FileNames.CanonicalDateSound` | main.py:56-57 | A name reads back as date d only if it begins with d's `YYYY-MM-DD` rendering |
| `FileNames.RawNameHasNoCanonicalDate` | main.py:51-57 | A raw download never reads as a canonical date, so the second loop never routes one |
| `FileNames.CanonicalNameIsNotRaw` | main.py:14-15 | A canonical name is never picked up again as a raw download |
| `Dates.ParseCompactExact` | main.py:30 | `%Y%m%d` accepts exactly the eight-digit renderings of valid dates, and yields that date |
| `Dates.ParseDashedExact` | main.py:57 | `%Y-%m-%d` accepts exactly the dashed renderings of valid dates, and yields that date |
| `Dates.OrdinalOrder` | main.py:70 | Comparing dates as instants agrees with calendar order, in both directions |
| `Dates.EpochOrdinal` | main.py:8-11 | The day count agrees with Python's `date.toordinal()`: 1970-01-01 is day 719163 |
| `Snapshots.CanonicalFiles` | main.py:90-91 | The files selected are exactly the listed ones ending in `-NSE-NEW.csv`, kept in listing order |
| `Aggregation.ProcessFiles` | main.py:89-128 | Existing ledger rows stay a prefix; with no canonical file, or none passing the column check, the ledger is left as it was; otherwise it becomes the old rows followed by this run's rows |
| `Aggregation.VisitedInNameOrder` | main.py:97 | The files are visited in file-name order |
| `Aggregation.VisitedFiles` | main.py:97-108 | The visited files are exactly the canonical files carrying every required column, each as often as listed |
| `Aggregation.AppendedRows` | main.py:110-112 | A row is appended exactly when some conforming canonical file has an EQ or BE row projecting to it |
| `Aggregation.AppendedSeries` | main.py:110 | Every appended ledger row belongs to series EQ or BE |
| `Aggregation.AppendedInListingOrder` | main.py:97-119 | With the listing already in name order, the rows are the per-file extracts concatenated in listing order |
| `Aggregation.RerunAppendsAgain` | main.py:118-127 | The ledger is not idempotent: a second run on unchanged files appends the same rows again, doubling a fresh ledger |
| `Watchlist.FirstClose` | main.py:188-192 | The close found for a symbol is that of its first row, and it is found exactly when the snapshot has the symbol |
| `Watchlist.LastClose` | main.py:201-204 | `dict(zip(...))` maps a symbol to the close of its last row, and has it exactly when the snapshot has the symbol |
| `Watchlist.RateOfChangeExample` | main.py:193 | A rise from 100 to 110 (or 50 to 55) is a 10% ROC |
| `Watchlist.RateOfChangeInverse` | main.py:193 | Applying the ROC as a percentage to the old close gives the new close |
| `Watchlist.Candidates` | main.py:196-198 | The candidates are the EQ/BE rows of the latest snapshot, in order, each with its ROC |
| `Watchlist.CandidateRoc` | main.py:185-198 | A candidate is an EQ/BE row of the latest snapshot; its ROC exists exactly when its symbol is in the earliest snapshot, and is then computed from the first row on each side |
| `Watchlist.OrderIsTotalPreorder` | main.py:223 | Both ranking orders (missing ROC last) are total preorders, so sorting by them is well defined |
| `Watchlist.Ranking` | main.py:223-224 | A ranking has min(49, n) rows, each taken from the candidates |
| `Watchlist.RankingIsTop` | main.py:223-224 | A ranking is ordered, holds at most 49 rows, and every candidate left out ranks no better than every row kept |
| `Watchlist.RankingRocOrder` | main.py:221-224 | Defined ROC values rise in ASCENDING and fall in DESCENDING, and rows without a ROC come after all rows with one |
| `Watchlist.NearMeaning` | main.py:207 | A pair passes exactly when the reference is positive and the value lies strictly within 1% of it |
| `Watchlist.NearIsStrict` | main.py:207 | A value exactly 1% above or below the reference fails |
| `Watchlist.ConditionsOverPairs` | main.py:207-208 | The OR condition holds exactly when one of the four pairs (Close,Cmp), (Cmp,D1), (D1,D2), (D2,D3) passes; the AND condition exactly when all four do |
| `Watchlist.AllImpliesAny` | main.py:207-208 | The AND condition implies the OR condition; a row without `Cmp` and `D2` passes neither |
| `Watchlist.Top` | main.py:224-230 | A ranking's table holds at most 49 rows |
| `Watchlist.ScreenRows` | main.py:227-230 | Every table row is a ranked candidate carrying its symbol's `Cmp`, `D1`, `D2` and `D3` looked up in the four reference snapshots |
| `Watchlist.ScreenTables` | main.py:233-258 | Each table keeps its ranking's order, holds exactly the top-49 rows passing its condition, and the AND table is a selection of the OR table |
| `Watchlist.CalculateAndFilterWatchlist` | main.py:149-258 | Fewer than two bucket files give no watchlist; past that, an absent `1 MONTH` folder aborts the run and fewer than five files in it give no watchlist; past those, a missing column aborts; only then are there results, and they are the tables `ScreenShape` describes for the last listed bucket file against the first, with `Cmp`, `D1`, `D2` and `D3` looked up in the `1 MONTH` files at listing positions -2, -3, -4 and -5 |
| `Watchlist.EngineReadsBucketEnds` | main.py:153-171 | Two buckets whose first and last listed canonical files agree in columns and rows give the same result, whatever lies between them and whatever the files are named |
| `Watchlist.EngineReadsReferencePositions` | main.py:161-178 | Two `1 MONTH` listings whose canonical files agree in columns and rows at positions -2 to -5 give the same result, whatever the names, and so the dates, of those files |
| `Watchlist.ScreenBucket` | main.py:161-167 | The corrected engine never aborts on an absent `1 MONTH` folder: it reports too few reference files exactly when the bucket itself has enough files, and agrees with the engine whenever the folder exists |
| `Watchlist.MissingReferenceFolderAborts` | main.py:161-163 | Any bucket with two or more canonical files and no `1 MONTH` folder makes the engine abort, where the corrected engine reports too few reference files |
| `Watchlist.TopFromLatest` | main.py:196-230 | Every row of a ranking's table is an EQ/BE row of the latest snapshot |
| `Watchlist.ScreenFromLatest` | main.py:196-258 | The four tables built from the latest and earliest snapshots hold at most 49 rows each, all EQ/BE rows of the latest snapshot |
| `Watchlist.TopSorted` | main.py:221-230 | A ranking's top-49 table lists its rows in ROC order (NaN last), ascending or descending |
| `Watchlist.TopCarriesRefs` | main.py:200-230 | Every row of a ranking's table carries its symbol's closes from the four reference snapshots |
| `Watchlist.ScreenInRocOrder` | main.py:221-258 | All four OR/AND tables keep their ranking's ROC order |
| `Watchlist.ScreenSelectsTop` | main.py:227-258 | The four tables carry their reference closes, hold exactly the top-49 rows passing their condition, and each AND table is a selection of its OR table |
| `Watchlist.ScreenShapeHolds` | main.py:185-258 | The screened tables hold at most 49 EQ/BE rows of the latest snapshot each, with their reference closes, in ROC order, exactly the top-49 rows passing their condition, AND within OR |
| `Watchlist.ExampleCandidates` | main.py:185-198 | One EQ symbol closing at 50 in the earliest and 55 in the latest snapshot becomes a candidate with ROC 10 |
| `Watchlist.ExampleTop` | main.py:221-230 | A lone candidate heads both rankings and carries the reference closes of its symbol |
| `Watchlist.SingleSymbolExample` | main.py:207-258 | That symbol, with references 55, 54, 54 and 53, appears in both OR tables and in neither AND table |
| `Watchlist.ExampleZeroCloseElsewhere` | main.py:185-194 | A zero close in the earliest snapshot of a symbol the latest snapshot lacks is never divided by: the ROC of the other symbol is unaffected |

## Left out

- File I/O (`read_csv`, `to_csv`, `read_excel`, `to_excel`, `os.listdir`, `os.remove`, `shutil.copy`, `makedirs`): listings and contents are inputs, and effects are returned as values.
- `create_results_folders` (main.py:131-146) and every `print`: these only create empty directories and log.
- `datetime.now()` (main.py:8): the clock is the parameter `now`.
- `strptime` leniency: Python also accepts one-digit months and days and non-ASCII digits. The model accepts exactly the zero-padded ASCII forms, so `Dates.ParseCompactExact` and `Dates.ParseDashedExact` describe a stricter parser.
- `strftime("%Y")` for years below 1000: its padding differs by platform, and the model always pads to four digits.
- `Watchlist.RateOfChange`: requires a nonzero earliest close, because IEEE-754 division by zero, infinities and rounding are not modelled; prices are exact `real`s.
- `Watchlist.CalculateAndFilterWatchlist`: whenever the run gets past both guards, the `1 MONTH` listing and the column reads, requires that no symbol of the last listed bucket file has a zero close in its first row of the first listed file, for the same reason: numpy division gives an infinite or NaN ROC for exactly those symbols (main.py:191-193). Zero closes of other symbols are allowed, as `Watchlist.ExampleZeroCloseElsewhere` shows. `Watchlist.ScreenBucket`, `Watchlist.EngineReadsBucketEnds` and `Watchlist.EngineReadsReferencePositions` carry the same requirement.
- `Watchlist.CalculateAndFilterWatchlist`: a snapshot that cannot be parsed at all (main.py:170-178) raises an uncaught pandas error; contents are given as parsed `SnapshotFile` values, so this case is not represented.
- `Watchlist.Candidates`, `Watchlist.CandidateRoc`, `Watchlist.ScreenFromLatest`, `Watchlist.TopSorted`, `Watchlist.ScreenInRocOrder` and `Watchlist.ScreenShapeHolds`: carry the same requirement, that no divisor the ROC loop uses is zero.
- The tie order of `sort_values`: pandas' default sort is not stable. The model uses a stable insertion sort, and no contract states the order of rows with equal ROC.
- `col.title()` header normalisation (main.py:102, main.py:180-181): the model sees columns under their canonical names.
- The cosmetic `del_columns` drop (main.py:217-241): the table rows keep the snapshot's fields.
- `Retention.RunRemovesOnlyIngested`: `read_csv` (main.py:20) runs before the name is parsed. A raw file whose contents cannot be parsed raises `EmptyDataError` or `ParserError`, both `ValueError`s caught at main.py:46, and stays in the root although its name is readable. The equivalence holds only for raw files whose contents read cleanly.
- `Retention.RunIngestsAndReports`: for the same reason, a raw file with unparsable contents is reported although its name is readable, and yields no canonical file. The stated report is exact only for raw files whose contents read cleanly.
- `Retention.RunRootFrame`: the same reading failure leaves such a raw file in the root and writes no canonical file for it; the frame holds only for raw files whose contents read cleanly.
- `Retention.IngestAllRoot`: for the same reason, a raw file whose name is readable but whose contents are not is neither removed nor replaced by a canonical file; the equality holds only for raw files whose contents read cleanly.
- `Retention.RunRoutesIngestedFile`: a raw file whose contents fail to read writes no canonical file, so nothing is routed for it; the statement holds only for raw files whose contents read cleanly.
- `Retention.RunNameErrors`: a raw name that also ends in `-NSE-NEW.csv`, has a readable date and has unreadable contents stays in the root, and the second loop reports it (main.py:51-62); the model, which treats it as ingested, does not. The equivalence holds only for raw files whose contents read cleanly.
- The uncaught `KeyError` when a raw file lacks the exchange's column names (main.py:23-24): only `IndexError` and `ValueError` are caught, and a raw file's contents are not part of the model.
- Files that fail to read inside `process_files` (`except Exception`, main.py:114-116): they are modelled as files failing the column check.
- The output file names per bucket (main.py:211-215, main.py:248-252) and the per-bucket driver `main` (main.py:262-283): a constant lookup and a loop over the three folders.
- `Retention.RunFolders`: the bucket folders and the root after ingestion are sets of names, so the order in which the second loop copies files, and which identical copy overwrites which, is not represented.

## Findings

| source | as written | input that shows it | evidently intended | confidence | as-written member | corrected member |
|---|---|---|---|---|---|---|
| main.py:161-163 | `os.listdir` of `DATA/1 MONTH` runs with no existence check, so a missing folder raises `FileNotFoundError`, which nothing catches, and the run ends | a `3 MONTHS` bucket holding two or more canonical files, all between 29 and 84 days old, when no `1 MONTH` folder was ever created (main.py:76-78 creates it only on a copy) | treat a missing folder like one holding too few files: report it and skip the bucket, as main.py:165-167 does | medium; not executed | `Watchlist.MissingReferenceFolderAborts` | `Watchlist.ScreenBucket` |
