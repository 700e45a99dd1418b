/** `calculate_and_filter_watchlist`: the watchlist engine. For one bucket
    it computes each symbol's rate of change (ROC) between the bucket's
    first and last listed snapshot, ranks the EQ/BE rows of the last
    snapshot by ROC both ways, keeps the top 49 of each ranking, looks up
    four reference closes in the `1 MONTH` folder's listing, and keeps the
    rows whose close was stable by an OR and by an AND of four ±1% tests. */
module Watchlist {
  import opened Base
  import opened Sorting
  import opened Snapshots

  /** `head(49)`. */
  const TopCount: nat := 49

  /** The bucket needs two snapshots to compare (`len(files_list) < 2`). */
  const MinBucketFiles: nat := 2

  /** The reference window needs five snapshots (`len(filter_files) < 5`). */
  const MinReferenceFiles: nat := 5

  predicate HasSymbol(rows: seq<Row>, symbol: string) {
    exists i :: 0 <= i < |rows| && rows[i].symbol == symbol
  }

  /** The close of the first row with `symbol`, as
      `df.at[df[df['Symbol'] == symbol].index[0], 'Close']` reads it. */
  function FirstClose(rows: seq<Row>, symbol: string): (r: Option<real>)
    ensures r.Some? <==> HasSymbol(rows, symbol)
    ensures r.Some? ==> exists i :: 0 <= i < |rows| && rows[i].symbol == symbol && rows[i].close == r.value
                                    && forall j :: 0 <= j < i ==> rows[j].symbol != symbol
    decreases |rows|
  {
    if |rows| == 0 then None
    else if rows[0].symbol == symbol then
      Some(rows[0].close)
    else
      var r := FirstClose(rows[1..], symbol);
      assert HasSymbol(rows, symbol) ==> HasSymbol(rows[1..], symbol) by {
        if HasSymbol(rows, symbol) {
          var i :| 0 <= i < |rows| && rows[i].symbol == symbol;
          assert rows[1..][i - 1].symbol == symbol;
        }
      }
      if r.Some? then
        var i :| 0 <= i < |rows[1..]| && rows[1..][i].symbol == symbol && rows[1..][i].close == r.value
                 && forall j :: 0 <= j < i ==> rows[1..][j].symbol != symbol;
        assert rows[i + 1].symbol == symbol && rows[i + 1].close == r.value;
        assert forall j :: 0 <= j < i + 1 ==> rows[j].symbol != symbol by {
          forall j | 0 <= j < i + 1
            ensures rows[j].symbol != symbol
          {
            if j > 0 {
              assert rows[j] == rows[1..][j - 1];
            }
          }
        }
        r
      else
        r
  }

  /** The close `dict(zip(df['Symbol'], df['Close']))` maps `symbol` to:
      with repeated symbols the last row wins. */
  function LastClose(rows: seq<Row>, symbol: string): (r: Option<real>)
    ensures r.Some? <==> HasSymbol(rows, symbol)
    ensures r.Some? ==> exists i :: 0 <= i < |rows| && rows[i].symbol == symbol && rows[i].close == r.value
                                    && forall j :: i < j < |rows| ==> rows[j].symbol != symbol
    decreases |rows|
  {
    if |rows| == 0 then None
    else if rows[|rows| - 1].symbol == symbol then
      Some(rows[|rows| - 1].close)
    else
      var init := rows[..|rows| - 1];
      var r := LastClose(init, symbol);
      assert HasSymbol(rows, symbol) ==> HasSymbol(init, symbol) by {
        if HasSymbol(rows, symbol) {
          var i :| 0 <= i < |rows| && rows[i].symbol == symbol;
          assert init[i].symbol == symbol;
        }
      }
      if r.Some? then
        var i :| 0 <= i < |init| && init[i].symbol == symbol && init[i].close == r.value
                 && forall j :: i < j < |init| ==> init[j].symbol != symbol;
        assert rows[i] == init[i];
        assert forall j :: i < j < |rows| ==> rows[j].symbol != symbol by {
          forall j | i < j < |rows|
            ensures rows[j].symbol != symbol
          {
            if j < |rows| - 1 {
              assert rows[j] == init[j];
            }
          }
        }
        r
      else
        r
  }

  /** `((current_close - old_close) / old_close) * 100`. */
  function RateOfChange(oldClose: real, currentClose: real): real
    requires oldClose != 0.0
  {
    (currentClose - oldClose) / oldClose * 100.0
  }

  /** A close of 100 followed by a close of 110 is a 10% rise. */
  lemma RateOfChangeExample()
    ensures RateOfChange(100.0, 110.0) == 10.0
    ensures RateOfChange(50.0, 55.0) == 10.0
  {
  }

  /** The ROC's defining relation: applying it as a percentage to the old
      close gives the new close. */
  lemma RateOfChangeInverse(oldClose: real, currentClose: real)
    requires oldClose != 0.0
    ensures oldClose + oldClose * RateOfChange(oldClose, currentClose) / 100.0 == currentClose
  {
  }

  /** Every division the ROC loop performs is by a nonzero close: no
      symbol of the latest snapshot has a zero close in its first row of the
      earliest one. Zero closes of other symbols are never divided by. */
  predicate DivisorsNonzero(latest: seq<Row>, earliest: seq<Row>) {
    forall i :: 0 <= i < |latest| ==> FirstClose(earliest, latest[i].symbol) != Some(0.0)
  }

  /** `query.get(symbol)`: the ROC between the first rows with `symbol` in
      the earliest and the latest snapshot; missing (NaN) when the symbol
      is absent from either. */
  function Roc(latest: seq<Row>, earliest: seq<Row>, symbol: string): (r: Option<real>)
    requires DivisorsNonzero(latest, earliest)
  {
    match FirstClose(latest, symbol)
    case None => None
    case Some(current) =>
      assert FirstClose(earliest, symbol) != Some(0.0) by {
        var i :| 0 <= i < |latest| && latest[i].symbol == symbol;
      }
      match FirstClose(earliest, symbol)
      case None => None
      case Some(first) => Some(RateOfChange(first, current))
  }

  /** A row of the latest snapshot together with its `Roc` column. */
  datatype Candidate = Candidate(row: Row, roc: Option<real>)

  /** `report[report["Series"].isin(["EQ", "BE"])]` with `Roc` inserted. */
  function Candidates(latest: seq<Row>, earliest: seq<Row>): (c: seq<Candidate>)
    requires DivisorsNonzero(latest, earliest)
    ensures |c| == |Filter(latest, InRankedSeries)|
    ensures forall i :: 0 <= i < |c| ==> c[i].row == Filter(latest, InRankedSeries)[i]
    ensures forall i :: 0 <= i < |c| ==> c[i].roc == Roc(latest, earliest, c[i].row.symbol)
  {
    MapSeq(Filter(latest, InRankedSeries), (r: Row) => Candidate(r, Roc(latest, earliest, r.symbol)))
  }

  /** Every candidate is an EQ or BE row of the latest snapshot; its ROC is
      defined exactly when its symbol is also in the earliest snapshot, and
      is then computed from the first row of the symbol on each side. */
  lemma CandidateRoc(latest: seq<Row>, earliest: seq<Row>, c: Candidate)
    requires DivisorsNonzero(latest, earliest)
    requires c in Candidates(latest, earliest)
    ensures c.row in latest && IsRankedSeries(c.row.series)
    ensures c.roc.Some? <==> HasSymbol(earliest, c.row.symbol)
    ensures c.roc.Some? ==>
      var first := FirstClose(earliest, c.row.symbol).value;
      var current := FirstClose(latest, c.row.symbol).value;
      first != 0.0 && c.roc.value == RateOfChange(first, current)
  {
    var cs := Candidates(latest, earliest);
    var i :| 0 <= i < |cs| && cs[i] == c;
    var kept := Filter(latest, InRankedSeries);
    assert c.row == kept[i] && kept[i] in kept;
    assert HasSymbol(latest, c.row.symbol) by {
      var k :| 0 <= k < |latest| && latest[k] == c.row;
    }
    if HasSymbol(earliest, c.row.symbol) {
      var k :| 0 <= k < |earliest| && earliest[k].symbol == c.row.symbol
               && earliest[k].close == FirstClose(earliest, c.row.symbol).value
               && forall j :: 0 <= j < k ==> earliest[j].symbol != c.row.symbol;
    }
  }

  /* ---- Ranking ---- */

  /** `sort_values(by='Roc', ascending=True)`: defined values rising, missing
      ones last. */
  predicate AscendingLe(a: Candidate, b: Candidate) {
    match a.roc
    case None => b.roc.None?
    case Some(x) => b.roc.None? || x <= b.roc.value
  }

  /** `sort_values(by='Roc', ascending=False)`: defined values falling,
      missing ones still last. */
  predicate DescendingLe(a: Candidate, b: Candidate) {
    match a.roc
    case None => b.roc.None?
    case Some(x) => b.roc.None? || x >= b.roc.value
  }

  function Order(ascending: bool): (Candidate, Candidate) -> bool {
    if ascending then AscendingLe else DescendingLe
  }

  lemma OrderIsTotalPreorder(ascending: bool)
    ensures TotalPreorder(Order(ascending))
  {
  }

  /** `sort_values(...).head(49)`. */
  function Ranking(cands: seq<Candidate>, ascending: bool): (r: seq<Candidate>)
    ensures |r| == Min(TopCount, |cands|)
    ensures multiset(r) <= multiset(cands)
  {
    var sorted := InsertionSort(cands, Order(ascending));
    var k := Min(TopCount, |sorted|);
    assert sorted == sorted[..k] + sorted[k..];
    assert multiset(sorted) == multiset(sorted[..k]) + multiset(sorted[k..]);
    sorted[..k]
  }

  /** A ranking holds at most 49 candidates, in order, and every candidate
      left out ranks no better than every one kept. */
  lemma RankingIsTop(cands: seq<Candidate>, ascending: bool)
    ensures var r := Ranking(cands, ascending);
      && |r| <= TopCount
      && SortedBy(r, Order(ascending))
      && forall x, y :: x in r && y in multiset(cands) - multiset(r) ==> Order(ascending)(x, y)
  {
    var le := Order(ascending);
    var sorted := InsertionSort(cands, le);
    OrderIsTotalPreorder(ascending);
    SortIsSorted(cands, le);
    var k := Min(TopCount, |sorted|);
    var r := sorted[..k];
    assert r == Ranking(cands, ascending);
    assert SortedBy(r, le);
    assert sorted == r + sorted[k..];
    assert multiset(cands) - multiset(r) == multiset(sorted[k..]);
    PrefixPrecedesRest(sorted, k, le);
  }

  /** In a ranking, defined ROC values rise (ASCENDING) or fall
      (DESCENDING), and rows without a ROC come after all rows with one. */
  lemma RankingRocOrder(cands: seq<Candidate>, ascending: bool)
    ensures var r := Ranking(cands, ascending);
      && (forall i, j :: 0 <= i < j < |r| && r[i].roc.None? ==> r[j].roc.None?)
      && (forall i, j :: 0 <= i < j < |r| && r[i].roc.Some? && r[j].roc.Some? ==>
            if ascending then r[i].roc.value <= r[j].roc.value else r[i].roc.value >= r[j].roc.value)
  {
    RankingIsTop(cands, ascending);
  }

  /* ---- Stability filter ---- */

  /** A ranked row as written out: the snapshot's columns plus the reference
      closes `Cmp`, `D1`, `D2` and `D3`; the `Roc` column is dropped. */
  datatype WatchRow = WatchRow(row: Row, cmp: Option<real>, d1: Option<real>, d2: Option<real>, d3: Option<real>)

  /** The four reference snapshots, newest first. */
  datatype References = References(cmp: seq<Row>, d1: seq<Row>, d2: seq<Row>, d3: seq<Row>)

  /** `top_report['Cmp'] = top_report['Symbol'].map(cmp)` and likewise for D1-D3. */
  function Attach(refs: References, c: Candidate): WatchRow {
    var s := c.row.symbol;
    WatchRow(c.row, LastClose(refs.cmp, s), LastClose(refs.d1, s), LastClose(refs.d2, s), LastClose(refs.d3, s))
  }

  /** `(a < 1.01*b) & (a > .99*b)`; a missing value makes the test false,
      as a comparison with NaN is. */
  predicate Near(a: Option<real>, b: Option<real>) {
    a.Some? && b.Some? && a.value < 1.01 * b.value && a.value > 0.99 * b.value
  }

  /** The pair test only passes against a positive reference, and then means
      "strictly within 1% of it". */
  lemma NearMeaning(a: real, b: real)
    ensures Near(Some(a), Some(b)) <==> b > 0.0 && -(b / 100.0) < a - b < b / 100.0
  {
  }

  /** The bounds are strict: exactly 1% off fails. */
  lemma NearIsStrict(b: real)
    ensures !Near(Some(1.01 * b), Some(b)) && !Near(Some(0.99 * b), Some(b))
  {
  }

  /** The four consecutive pairs: (Close, Cmp), (Cmp, D1), (D1, D2), (D2, D3). */
  function Pairs(w: WatchRow): seq<(Option<real>, Option<real>)> {
    [(Some(w.row.close), w.cmp), (w.cmp, w.d1), (w.d1, w.d2), (w.d2, w.d3)]
  }

  /** `condition1`: at least one pair is within 1%. */
  predicate StableAny(w: WatchRow) {
    Near(Some(w.row.close), w.cmp) || Near(w.cmp, w.d1) || Near(w.d1, w.d2) || Near(w.d2, w.d3)
  }

  /** `condition2`: all four pairs are within 1%. */
  predicate StableAll(w: WatchRow) {
    Near(Some(w.row.close), w.cmp) && Near(w.cmp, w.d1) && Near(w.d1, w.d2) && Near(w.d2, w.d3)
  }

  /** The two conditions in terms of the list of pairs. */
  lemma ConditionsOverPairs(w: WatchRow)
    ensures StableAny(w) <==> exists i :: 0 <= i < 4 && Near(Pairs(w)[i].0, Pairs(w)[i].1)
    ensures StableAll(w) <==> forall i :: 0 <= i < 4 ==> Near(Pairs(w)[i].0, Pairs(w)[i].1)
  {
    var p := Pairs(w);
    assert p[0] == (Some(w.row.close), w.cmp) && p[1] == (w.cmp, w.d1);
    assert p[2] == (w.d1, w.d2) && p[3] == (w.d2, w.d3);
    if StableAny(w) {
      if Near(Some(w.row.close), w.cmp) {
        assert Near(p[0].0, p[0].1);
      } else if Near(w.cmp, w.d1) {
        assert Near(p[1].0, p[1].1);
      } else if Near(w.d1, w.d2) {
        assert Near(p[2].0, p[2].1);
      } else {
        assert Near(p[3].0, p[3].1);
      }
    }
    if forall i :: 0 <= i < 4 ==> Near(p[i].0, p[i].1) {
      assert Near(p[0].0, p[0].1) && Near(p[1].0, p[1].1);
      assert Near(p[2].0, p[2].1) && Near(p[3].0, p[3].1);
    }
  }

  /** The AND condition is stronger than the OR condition; a row with no
      reference closes at all passes neither. */
  lemma AllImpliesAny(w: WatchRow)
    ensures StableAll(w) ==> StableAny(w)
    ensures w.cmp.None? && w.d2.None? ==> !StableAny(w)
  {
  }

  /* ---- The engine ---- */

  /** The four result tables of one bucket: ASCENDING and DESCENDING, each
      under the OR and the AND condition. */
  datatype Watchlists = Watchlists(
    ascendingOr: seq<WatchRow>,
    ascendingAnd: seq<WatchRow>,
    descendingOr: seq<WatchRow>,
    descendingAnd: seq<WatchRow>)

  /** Why a bucket yields no watchlists. `TooFewBucketFiles` and
      `TooFewReferenceFiles` are the two early returns; `ReferenceFolderMissing`
      (`os.listdir` of an absent `1 MONTH` folder) and `MissingColumn` (a
      `KeyError` on a column a snapshot lacks) are exceptions nothing
      catches, which end the whole run. */
  datatype EngineError = TooFewBucketFiles | ReferenceFolderMissing | TooFewReferenceFiles | MissingColumn

  /** The columns the latest snapshot is always read through: `Symbol` by
      the ROC loop, `Series` by the EQ/BE filter, `Close` by the conditions. */
  const ReportColumns: set<string> := {"Symbol", "Series", "Close"}

  /** The columns `dict(zip(f['Symbol'], f['Close']))` reads. */
  const LookupColumns: set<string> := {"Symbol", "Close"}

  /** Some symbol of `latest` also occurs in `earliest`. */
  predicate SharesSymbol(latest: seq<Row>, earliest: seq<Row>) {
    exists i :: 0 <= i < |latest| && HasSymbol(earliest, latest[i].symbol)
  }

  /** No read of the six snapshots hits a missing column. The earliest
      snapshot's `Symbol` column is read only once the latest has a row, and
      its `Close` column only once a symbol occurs in both. */
  predicate ColumnsPresent(latest: SnapshotFile, earliest: SnapshotFile, month: seq<SnapshotFile>)
    requires |month| >= MinReferenceFiles
  {
    && ReportColumns <= latest.columns
    && (|latest.rows| > 0 ==> "Symbol" in earliest.columns)
    && (SharesSymbol(latest.rows, earliest.rows) ==> "Close" in earliest.columns)
    && LookupColumns <= month[|month| - 2].columns && LookupColumns <= month[|month| - 3].columns
    && LookupColumns <= month[|month| - 4].columns && LookupColumns <= month[|month| - 5].columns
  }

  /** The top-49 of a ranking with the reference closes attached. */
  function Top(cands: seq<Candidate>, refs: References, ascending: bool): (t: seq<WatchRow>)
    ensures |t| <= TopCount
  {
    MapSeq(Ranking(cands, ascending), c => Attach(refs, c))
  }

  /** Ranking and filtering once the inputs are read. */
  function Screen(cands: seq<Candidate>, refs: References): Watchlists {
    var asc := Top(cands, refs, true);
    var desc := Top(cands, refs, false);
    Watchlists(Filter(asc, StableAny), Filter(asc, StableAll), Filter(desc, StableAny), Filter(desc, StableAll))
  }

  /** The reference snapshots: the 2nd- to 5th-last entries of the listing,
      whatever dates they carry. */
  function ReferenceFiles(month: seq<SnapshotFile>): (refs: References)
    requires |month| >= MinReferenceFiles
    ensures refs.cmp == month[|month| - 2].rows && refs.d1 == month[|month| - 3].rows
    ensures refs.d2 == month[|month| - 4].rows && refs.d3 == month[|month| - 5].rows
  {
    References(month[|month| - 2].rows, month[|month| - 3].rows, month[|month| - 4].rows, month[|month| - 5].rows)
  }

  /** The last entry of a non-empty listing. */
  function Last(files: seq<SnapshotFile>): SnapshotFile
    requires |files| > 0
  {
    files[|files| - 1]
  }

  /** The run gets past both early returns, the listing of `1 MONTH`
      and every column read. */
  predicate Proceeds(bucket: seq<SnapshotFile>, oneMonth: Option<seq<SnapshotFile>>) {
    var files := CanonicalFiles(bucket);
    && |files| >= MinBucketFiles
    && oneMonth.Some?
    && |CanonicalFiles(oneMonth.value)| >= MinReferenceFiles
    && ColumnsPresent(files[|files| - 1], files[0], CanonicalFiles(oneMonth.value))
  }

  /** A run that reaches the ROC loop divides by no zero close. */
  predicate RocDefined(bucket: seq<SnapshotFile>, oneMonth: Option<seq<SnapshotFile>>) {
    var files := CanonicalFiles(bucket);
    Proceeds(bucket, oneMonth) ==> DivisorsNonzero(files[|files| - 1].rows, files[0].rows)
  }

  /** `calculate_and_filter_watchlist(folder, index, data_folder)`: `bucket`
      and `oneMonth` are the listings of the bucket and of `DATA/1 MONTH`
      (`None` when that folder does not exist), in `os.listdir` order, which
      is not necessarily name order; "earliest" and "latest" are the first
      and last canonical files of that order. */
  function CalculateAndFilterWatchlist(bucket: seq<SnapshotFile>, oneMonth: Option<seq<SnapshotFile>>): (r: Result<Watchlists, EngineError>)
    requires RocDefined(bucket, oneMonth)
    ensures r == Err(TooFewBucketFiles) <==> |CanonicalFiles(bucket)| < MinBucketFiles
    ensures r == Err(ReferenceFolderMissing) <==> |CanonicalFiles(bucket)| >= MinBucketFiles && oneMonth.None?
    ensures r == Err(TooFewReferenceFiles)
        <==> |CanonicalFiles(bucket)| >= MinBucketFiles && oneMonth.Some? && |CanonicalFiles(oneMonth.value)| < MinReferenceFiles
    ensures r.Ok? <==> Proceeds(bucket, oneMonth)
    ensures r.Ok? ==>
      var files := CanonicalFiles(bucket);
      && |files| >= MinBucketFiles && oneMonth.Some? && |CanonicalFiles(oneMonth.value)| >= MinReferenceFiles
      && DivisorsNonzero(Last(files).rows, files[0].rows)
      && ScreenShape(r.value, Last(files).rows, files[0].rows, ReferenceFiles(CanonicalFiles(oneMonth.value)))
  {
    var files := CanonicalFiles(bucket);
    if |files| < MinBucketFiles then Err(TooFewBucketFiles)
    else if oneMonth.None? then Err(ReferenceFolderMissing)
    else
      var month := CanonicalFiles(oneMonth.value);
      if |month| < MinReferenceFiles then Err(TooFewReferenceFiles)
      else if !ColumnsPresent(files[|files| - 1], files[0], month) then Err(MissingColumn)
      else
        var latest, earliest, refs := files[|files| - 1].rows, files[0].rows, ReferenceFiles(month);
        ScreenShapeHolds(latest, earliest, refs);
        Ok(Screen(Candidates(latest, earliest), refs))
  }

  /** Two snapshot files with the same columns and rows, whatever their names. */
  predicate SameContent(f: SnapshotFile, g: SnapshotFile) {
    f.columns == g.columns && f.rows == g.rows
  }

  /** The engine reads the `1 MONTH` folder only at listing positions -2,
      -3, -4 and -5: two listings whose canonical files agree in content
      there give the same result, whatever those files are named (and so
      dated) and whatever else the listings hold. */
  lemma EngineReadsReferencePositions(bucket: seq<SnapshotFile>, m1: seq<SnapshotFile>, m2: seq<SnapshotFile>)
    requires var a, b := CanonicalFiles(m1), CanonicalFiles(m2);
      && |a| >= MinReferenceFiles && |b| >= MinReferenceFiles
      && SameContent(a[|a| - 2], b[|b| - 2]) && SameContent(a[|a| - 3], b[|b| - 3])
      && SameContent(a[|a| - 4], b[|b| - 4]) && SameContent(a[|a| - 5], b[|b| - 5])
    requires RocDefined(bucket, Some(m1))
    ensures RocDefined(bucket, Some(m2))
    ensures CalculateAndFilterWatchlist(bucket, Some(m1)) == CalculateAndFilterWatchlist(bucket, Some(m2))
  {
    var files, a, b := CanonicalFiles(bucket), CanonicalFiles(m1), CanonicalFiles(m2);
    assert ReferenceFiles(a) == ReferenceFiles(b);
    if |files| >= MinBucketFiles {
      assert ColumnsPresent(files[|files| - 1], files[0], a) == ColumnsPresent(files[|files| - 1], files[0], b);
    }
  }

  /** The engine reads the bucket only at its first and last listed
      canonical file: two buckets agreeing in content there give the same
      result, whatever lies between and whatever the files are named. */
  lemma EngineReadsBucketEnds(b1: seq<SnapshotFile>, b2: seq<SnapshotFile>, oneMonth: Option<seq<SnapshotFile>>)
    requires var x, y := CanonicalFiles(b1), CanonicalFiles(b2);
      && |x| >= MinBucketFiles && |y| >= MinBucketFiles
      && SameContent(x[0], y[0]) && SameContent(x[|x| - 1], y[|y| - 1])
    requires RocDefined(b1, oneMonth)
    ensures RocDefined(b2, oneMonth)
    ensures CalculateAndFilterWatchlist(b1, oneMonth) == CalculateAndFilterWatchlist(b2, oneMonth)
  {
    var x, y := CanonicalFiles(b1), CanonicalFiles(b2);
    if oneMonth.Some? && |CanonicalFiles(oneMonth.value)| >= MinReferenceFiles {
      var month := CanonicalFiles(oneMonth.value);
      assert ColumnsPresent(x[|x| - 1], x[0], month) == ColumnsPresent(y[|y| - 1], y[0], month);
    }
  }

  /** The evidently intended engine: an absent `1 MONTH` folder counts as
      holding too few reference files, as an empty one does, instead of
      ending the run. */
  function ScreenBucket(bucket: seq<SnapshotFile>, oneMonth: Option<seq<SnapshotFile>>): (r: Result<Watchlists, EngineError>)
    requires RocDefined(bucket, oneMonth)
    ensures r != Err(ReferenceFolderMissing)
    ensures oneMonth.Some? ==> r == CalculateAndFilterWatchlist(bucket, oneMonth)
    ensures oneMonth.None? ==> (r == Err(TooFewReferenceFiles) <==> |CanonicalFiles(bucket)| >= MinBucketFiles)
  {
    var month := Some(oneMonth.GetOr([]));
    assert CanonicalFiles([]) == [];
    CalculateAndFilterWatchlist(bucket, month)
  }

  /** As written, a bucket with two or more canonical files and no `1 MONTH`
      folder ends the run with an uncaught error; the intended engine
      reports too few reference files instead. */
  lemma MissingReferenceFolderAborts(bucket: seq<SnapshotFile>)
    requires |CanonicalFiles(bucket)| >= MinBucketFiles
    ensures CalculateAndFilterWatchlist(bucket, None) == Err(ReferenceFolderMissing)
    ensures ScreenBucket(bucket, None) == Err(TooFewReferenceFiles)
  {
  }

  /** What each of the four tables holds: an order-preserving selection of
      its ranking's top 49, keeping exactly the rows that pass its condition;
      the AND table is a selection of the OR table. */
  lemma ScreenTables(cands: seq<Candidate>, refs: References)
    ensures var w := Screen(cands, refs);
      var asc, desc := Top(cands, refs, true), Top(cands, refs, false);
      && Sublist(w.ascendingOr, asc) && Sublist(w.ascendingAnd, asc)
      && Sublist(w.descendingOr, desc) && Sublist(w.descendingAnd, desc)
      && Sublist(w.ascendingAnd, w.ascendingOr) && Sublist(w.descendingAnd, w.descendingOr)
      && (forall x :: x in w.ascendingOr <==> x in asc && StableAny(x))
      && (forall x :: x in w.ascendingAnd <==> x in asc && StableAll(x))
      && (forall x :: x in w.descendingOr <==> x in desc && StableAny(x))
      && (forall x :: x in w.descendingAnd <==> x in desc && StableAll(x))
  {
    var asc, desc := Top(cands, refs, true), Top(cands, refs, false);
    FilterIsSublist(asc, StableAny);
    FilterIsSublist(asc, StableAll);
    FilterIsSublist(desc, StableAny);
    FilterIsSublist(desc, StableAll);
    FilterStrongerIsSublist(asc, StableAll, StableAny);
    FilterStrongerIsSublist(desc, StableAll, StableAny);
  }

  /** Every row of every table is an EQ or BE row among the first 49 of its
      ranking, carries its symbol's reference closes, and no table exceeds
      49 rows. */
  lemma ScreenRows(cands: seq<Candidate>, refs: References, ascending: bool, x: WatchRow)
    requires x in Top(cands, refs, ascending)
    ensures exists c :: c in Ranking(cands, ascending) && c in cands && x == Attach(refs, c)
    ensures x.cmp == LastClose(refs.cmp, x.row.symbol) && x.d1 == LastClose(refs.d1, x.row.symbol)
    ensures x.d2 == LastClose(refs.d2, x.row.symbol) && x.d3 == LastClose(refs.d3, x.row.symbol)
  {
    var r := Ranking(cands, ascending);
    var t := Top(cands, refs, ascending);
    var i :| 0 <= i < |t| && t[i] == x;
    assert r[i] in r;
    assert r[i] in multiset(cands);
  }

  /** Every row of `t` is an EQ or BE row of `latest`. */
  predicate FromLatest(t: seq<WatchRow>, latest: seq<Row>) {
    forall x :: x in t ==> x.row in latest && IsRankedSeries(x.row.series)
  }

  /** The rows of a ranking's top 49 are EQ/BE rows of the latest snapshot. */
  lemma TopFromLatest(latest: seq<Row>, earliest: seq<Row>, refs: References, ascending: bool)
    requires DivisorsNonzero(latest, earliest)
    ensures FromLatest(Top(Candidates(latest, earliest), refs, ascending), latest)
  {
    var cands := Candidates(latest, earliest);
    forall x | x in Top(cands, refs, ascending)
      ensures x.row in latest && IsRankedSeries(x.row.series)
    {
      ScreenRows(cands, refs, ascending, x);
      var c :| c in Ranking(cands, ascending) && c in cands && x == Attach(refs, c);
      CandidateRoc(latest, earliest, c);
    }
  }

  /** Selecting rows keeps them from the latest snapshot. */
  lemma FilterFromLatest(t: seq<WatchRow>, p: WatchRow -> bool, latest: seq<Row>)
    requires FromLatest(t, latest)
    ensures FromLatest(Filter(t, p), latest)
  {
  }

  /** Each table holds at most 49 rows, all of them EQ/BE rows of `latest`. */
  predicate TablesFromLatest(w: Watchlists, latest: seq<Row>) {
    && |w.ascendingOr| <= TopCount && |w.ascendingAnd| <= TopCount
    && |w.descendingOr| <= TopCount && |w.descendingAnd| <= TopCount
    && FromLatest(w.ascendingOr, latest) && FromLatest(w.ascendingAnd, latest)
    && FromLatest(w.descendingOr, latest) && FromLatest(w.descendingAnd, latest)
  }

  /** The four tables built from one pair of snapshots hold at most 49 rows
      each, all of them EQ/BE rows of the latest snapshot. */
  lemma ScreenFromLatest(latest: seq<Row>, earliest: seq<Row>, refs: References)
    requires DivisorsNonzero(latest, earliest)
    ensures TablesFromLatest(Screen(Candidates(latest, earliest), refs), latest)
  {
    var cands := Candidates(latest, earliest);
    var asc, desc := Top(cands, refs, true), Top(cands, refs, false);
    TopFromLatest(latest, earliest, refs, true);
    TopFromLatest(latest, earliest, refs, false);
    FilterFromLatest(asc, StableAny, latest);
    FilterFromLatest(asc, StableAll, latest);
    FilterFromLatest(desc, StableAny, latest);
    FilterFromLatest(desc, StableAll, latest);
  }

  /** The candidate a table row was ranked as: its row with its `Roc`. */
  function Ranked(latest: seq<Row>, earliest: seq<Row>, x: WatchRow): Candidate
    requires DivisorsNonzero(latest, earliest)
  {
    Candidate(x.row, Roc(latest, earliest, x.row.symbol))
  }

  /** Table rows compared by the ROC they were ranked with. */
  function RowOrder(latest: seq<Row>, earliest: seq<Row>, ascending: bool): (WatchRow, WatchRow) -> bool
    requires DivisorsNonzero(latest, earliest)
  {
    (a: WatchRow, b: WatchRow) => Order(ascending)(Ranked(latest, earliest, a), Ranked(latest, earliest, b))
  }

  /** Every row of `t` carries its symbol's closes in the four reference
      snapshots, newest first. */
  predicate CarriesRefs(t: seq<WatchRow>, refs: References) {
    forall x :: x in t ==>
      && x.cmp == LastClose(refs.cmp, x.row.symbol) && x.d1 == LastClose(refs.d1, x.row.symbol)
      && x.d2 == LastClose(refs.d2, x.row.symbol) && x.d3 == LastClose(refs.d3, x.row.symbol)
  }

  /** Every row of every table carries its reference closes. */
  predicate TablesCarryRefs(w: Watchlists, refs: References) {
    && CarriesRefs(w.ascendingOr, refs) && CarriesRefs(w.ascendingAnd, refs)
    && CarriesRefs(w.descendingOr, refs) && CarriesRefs(w.descendingAnd, refs)
  }

  /** Every table lists its rows in its ranking's ROC order. */
  ghost predicate TablesInRocOrder(w: Watchlists, latest: seq<Row>, earliest: seq<Row>)
    requires DivisorsNonzero(latest, earliest)
  {
    && SortedBy(w.ascendingOr, RowOrder(latest, earliest, true))
    && SortedBy(w.ascendingAnd, RowOrder(latest, earliest, true))
    && SortedBy(w.descendingOr, RowOrder(latest, earliest, false))
    && SortedBy(w.descendingAnd, RowOrder(latest, earliest, false))
  }

  /** Each table holds exactly the rows of its ranking's top 49 that pass
      its condition, and each AND table is a selection of its OR table. */
  ghost predicate TablesSelectTop(w: Watchlists, cands: seq<Candidate>, refs: References) {
    var asc, desc := Top(cands, refs, true), Top(cands, refs, false);
    && (forall x :: x in w.ascendingOr <==> x in asc && StableAny(x))
    && (forall x :: x in w.ascendingAnd <==> x in asc && StableAll(x))
    && (forall x :: x in w.descendingOr <==> x in desc && StableAny(x))
    && (forall x :: x in w.descendingAnd <==> x in desc && StableAll(x))
    && Sublist(w.ascendingAnd, w.ascendingOr) && Sublist(w.descendingAnd, w.descendingOr)
  }

  /** What the four tables screened from `latest` against `earliest` and
      `refs` hold: at most 49 EQ/BE rows of `latest` each, with their
      reference closes, in ROC order; exactly the top-49 rows passing the
      table's condition; and each AND table a selection of its OR table. */
  ghost predicate ScreenShape(w: Watchlists, latest: seq<Row>, earliest: seq<Row>, refs: References)
    requires DivisorsNonzero(latest, earliest)
  {
    && TablesFromLatest(w, latest)
    && TablesCarryRefs(w, refs)
    && TablesInRocOrder(w, latest, earliest)
    && TablesSelectTop(w, Candidates(latest, earliest), refs)
  }

  /** A ranking's table lists its rows in the ranking's ROC order. */
  lemma TopSorted(latest: seq<Row>, earliest: seq<Row>, refs: References, ascending: bool)
    requires DivisorsNonzero(latest, earliest)
    ensures SortedBy(Top(Candidates(latest, earliest), refs, ascending), RowOrder(latest, earliest, ascending))
  {
    var cands := Candidates(latest, earliest);
    var r := Ranking(cands, ascending);
    var t := Top(cands, refs, ascending);
    RankingIsTop(cands, ascending);
    forall i | 0 <= i < |t|
      ensures Ranked(latest, earliest, t[i]) == r[i]
    {
      assert t[i] == Attach(refs, r[i]);
      assert r[i] in multiset(cands);
      var k :| 0 <= k < |cands| && cands[k] == r[i];
    }
    forall i, j | 0 <= i < j < |t|
      ensures RowOrder(latest, earliest, ascending)(t[i], t[j])
    {
      assert Order(ascending)(r[i], r[j]);
    }
  }

  /** Every table row carries its symbol's reference closes. */
  lemma TopCarriesRefs(cands: seq<Candidate>, refs: References, ascending: bool)
    ensures CarriesRefs(Top(cands, refs, ascending), refs)
  {
    forall x | x in Top(cands, refs, ascending)
      ensures x.cmp == LastClose(refs.cmp, x.row.symbol) && x.d1 == LastClose(refs.d1, x.row.symbol)
      ensures x.d2 == LastClose(refs.d2, x.row.symbol) && x.d3 == LastClose(refs.d3, x.row.symbol)
    {
      ScreenRows(cands, refs, ascending, x);
    }
  }

  /** The screened tables are in ROC order. */
  lemma ScreenInRocOrder(latest: seq<Row>, earliest: seq<Row>, refs: References)
    requires DivisorsNonzero(latest, earliest)
    ensures TablesInRocOrder(Screen(Candidates(latest, earliest), refs), latest, earliest)
  {
    var cands := Candidates(latest, earliest);
    var asc, desc := Top(cands, refs, true), Top(cands, refs, false);
    TopSorted(latest, earliest, refs, true);
    TopSorted(latest, earliest, refs, false);
    FilterKeepsOrder(asc, StableAny, RowOrder(latest, earliest, true));
    FilterKeepsOrder(asc, StableAll, RowOrder(latest, earliest, true));
    FilterKeepsOrder(desc, StableAny, RowOrder(latest, earliest, false));
    FilterKeepsOrder(desc, StableAll, RowOrder(latest, earliest, false));
  }

  /** The screened tables carry their reference closes and select the top
      rows passing their conditions. */
  lemma ScreenSelectsTop(cands: seq<Candidate>, refs: References)
    ensures TablesCarryRefs(Screen(cands, refs), refs)
    ensures TablesSelectTop(Screen(cands, refs), cands, refs)
  {
    ScreenTables(cands, refs);
    TopCarriesRefs(cands, refs, true);
    TopCarriesRefs(cands, refs, false);
  }

  /** Screening the latest snapshot against the earliest gives tables of
      the shape `ScreenShape` describes. */
  lemma ScreenShapeHolds(latest: seq<Row>, earliest: seq<Row>, refs: References)
    requires DivisorsNonzero(latest, earliest)
    ensures ScreenShape(Screen(Candidates(latest, earliest), refs), latest, earliest, refs)
  {
    ScreenFromLatest(latest, earliest, refs);
    ScreenInRocOrder(latest, earliest, refs);
    ScreenSelectsTop(Candidates(latest, earliest), refs);
  }

  /** The example row of `SingleSymbolExample`. */
  function ExampleRow(): Row {
    Row("ABC", "2024-03-08", 0.0, 0.0, 0.0, 55.0, 100, "ABC LTD", "EQ")
  }

  /** A one-row snapshot holding `ABC` at close `c`. */
  function ExampleSnapshot(c: real): seq<Row> {
    [Row("ABC", "", 0.0, 0.0, 0.0, c, 0, "ABC LTD", "EQ")]
  }

  /** `ABC` closed at 50 in the earliest snapshot and 55 in the latest: its
      ROC is 10. */
  lemma ExampleCandidates()
    ensures Candidates([ExampleRow()], ExampleSnapshot(50.0)) == [Candidate(ExampleRow(), Some(10.0))]
  {
    var r := ExampleRow();
    assert Filter([r], InRankedSeries) == [r];
    assert FirstClose([r], "ABC") == Some(55.0);
    assert FirstClose(ExampleSnapshot(50.0), "ABC") == Some(50.0);
  }

  /** A zero close is harmless when no symbol of the latest snapshot
      divides by it: `ZZZ` closing at 0 in the earliest snapshot, absent
      from the latest, leaves `ABC`'s ROC of 10 as it was. */
  lemma ExampleZeroCloseElsewhere()
    ensures var earliest := ExampleSnapshot(50.0) + [Row("ZZZ", "", 0.0, 0.0, 0.0, 0.0, 0, "ZZZ LTD", "EQ")];
      && DivisorsNonzero([ExampleRow()], earliest)
      && Candidates([ExampleRow()], earliest) == [Candidate(ExampleRow(), Some(10.0))]
  {
    var r := ExampleRow();
    var earliest := ExampleSnapshot(50.0) + [Row("ZZZ", "", 0.0, 0.0, 0.0, 0.0, 0, "ZZZ LTD", "EQ")];
    assert FirstClose(earliest, "ABC") == Some(50.0);
    assert Filter([r], InRankedSeries) == [r];
    assert FirstClose([r], "ABC") == Some(55.0);
  }

  /** A single-candidate ranking is that candidate, both ways, with the
      reference closes 55, 54, 54 and 53 attached. */
  lemma ExampleTop(refs: References, w: WatchRow)
    requires refs == References(ExampleSnapshot(55.0), ExampleSnapshot(54.0), ExampleSnapshot(54.0), ExampleSnapshot(53.0))
    requires w == WatchRow(ExampleRow(), Some(55.0), Some(54.0), Some(54.0), Some(53.0))
    ensures Top([Candidate(ExampleRow(), Some(10.0))], refs, true) == [w]
    ensures Top([Candidate(ExampleRow(), Some(10.0))], refs, false) == [w]
  {
    var cands := [Candidate(ExampleRow(), Some(10.0))];
    assert Ranking(cands, true) == cands && Ranking(cands, false) == cands;
    assert LastClose(refs.cmp, "ABC") == Some(55.0);
    assert LastClose(refs.d1, "ABC") == Some(54.0);
    assert LastClose(refs.d2, "ABC") == Some(54.0);
    assert LastClose(refs.d3, "ABC") == Some(53.0);
    assert Attach(refs, cands[0]) == w;
  }

  /** A single EQ row whose close rose from 50 to 55 and whose reference
      closes were 55, 54, 54 and 53: the close matches `Cmp` and `D1`
      matches `D2`, so it passes the OR condition, and `Cmp` is 1% or more
      above `D1`, so it fails the AND condition. */
  lemma SingleSymbolExample()
    ensures var refs := References(ExampleSnapshot(55.0), ExampleSnapshot(54.0), ExampleSnapshot(54.0), ExampleSnapshot(53.0));
      var w := WatchRow(ExampleRow(), Some(55.0), Some(54.0), Some(54.0), Some(53.0));
      Screen(Candidates([ExampleRow()], ExampleSnapshot(50.0)), refs) == Watchlists([w], [], [w], [])
  {
    var refs := References(ExampleSnapshot(55.0), ExampleSnapshot(54.0), ExampleSnapshot(54.0), ExampleSnapshot(53.0));
    var w := WatchRow(ExampleRow(), Some(55.0), Some(54.0), Some(54.0), Some(53.0));
    ExampleCandidates();
    ExampleTop(refs, w);
    assert StableAny(w) && !StableAll(w);
    assert Filter([w], StableAny) == [w];
    assert Filter([w], StableAll) == [];
  }
}
