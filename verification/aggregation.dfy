/** `process_files`: the per-bucket ledger. Every canonical file of the
    bucket is visited in file-name order; files lacking a required column
    are skipped; the EQ and BE rows of the others, cut down to Symbol,
    Series, Close, Volume and Date, are appended after whatever the ledger
    already holds. Nothing is ever removed or deduplicated. */
module Aggregation {
  import opened Base
  import opened Strings
  import opened Sorting
  import opened Snapshots

  /** A ledger row: the columns Symbol, Series, Close, Volume, Date. */
  datatype LedgerRow = LedgerRow(symbol: string, series: string, close: real, volume: int, date: string)

  function Project(r: Row): LedgerRow {
    LedgerRow(r.symbol, r.series, r.close, r.volume, r.date)
  }

  /** `df[df["Series"].isin(["EQ", "BE"])][["Symbol", "Series", "Close", "Volume", "Date"]]`. */
  function Extract(f: SnapshotFile): seq<LedgerRow> {
    MapSeq(Filter(f.rows, InRankedSeries), Project)
  }

  /** `sorted` on file names: code-point order of the names. */
  predicate NameLe(a: SnapshotFile, b: SnapshotFile) {
    LexLe(a.name, b.name)
  }

  lemma NameLeIsTotalPreorder()
    ensures TotalPreorder(NameLe)
  {
    forall a: SnapshotFile, b: SnapshotFile
      ensures NameLe(a, b) || NameLe(b, a)
    {
      LexLeTotal(a.name, b.name);
    }
    forall a: SnapshotFile, b: SnapshotFile, c: SnapshotFile | NameLe(a, b) && NameLe(b, c)
      ensures NameLe(a, c)
    {
      LexLeTransitive(a.name, b.name, c.name);
    }
  }

  /** The files the loop gets past the column check, in the order it visits them. */
  function Visited(folder: seq<SnapshotFile>): seq<SnapshotFile> {
    Filter(InsertionSort(CanonicalFiles(folder), NameLe), Conforms)
  }

  /** The rows one run appends: the extracts of the visited files, in order. */
  function Appended(folder: seq<SnapshotFile>): seq<LedgerRow> {
    Concat(MapSeq(Visited(folder), Extract))
  }

  /** The folder holds a canonical file with every required column. */
  predicate HasData(folder: seq<SnapshotFile>) {
    exists f :: f in folder && IsCanonicalFile(f) && Conforms(f)
  }

  /** `process_files(folder, output_file)`, with the ledger spreadsheet
      given as `None` when it does not exist yet and returned as the state
      it is left in. With no canonical file, or none passing the column
      check, nothing is written; otherwise the ledger is (re)written as
      the existing rows followed by this run's rows. */
  function ProcessFiles(folder: seq<SnapshotFile>, ledger: Option<seq<LedgerRow>>): (r: Option<seq<LedgerRow>>)
    ensures ledger.Some? ==> r.Some? && ledger.value <= r.value
    ensures !HasData(folder) ==> r == ledger
    ensures HasData(folder) ==> r == Some(ledger.GetOr([]) + Appended(folder))
  {
    var files := CanonicalFiles(folder);
    if |files| == 0 then ledger
    else
      var data := MapSeq(Visited(folder), Extract);
      VisitedFiles(folder);
      if |data| == 0 then
        ledger
      else
        assert Visited(folder)[0] in Visited(folder);
        Some(ledger.GetOr([]) + Concat(data))
  }

  /** The visited files are in file-name order. */
  lemma VisitedInNameOrder(folder: seq<SnapshotFile>)
    ensures SortedBy(Visited(folder), NameLe)
  {
    var files := CanonicalFiles(folder);
    NameLeIsTotalPreorder();
    SortIsSorted(files, NameLe);
    FilterKeepsOrder(InsertionSort(files, NameLe), Conforms, NameLe);
  }

  /** The visited files are exactly the conforming canonical files of the
      folder, each as often as it is listed. */
  lemma VisitedFiles(folder: seq<SnapshotFile>)
    ensures multiset(Visited(folder)) == multiset(Filter(CanonicalFiles(folder), Conforms))
    ensures forall f :: f in Visited(folder) <==> f in folder && IsCanonicalFile(f) && Conforms(f)
  {
    var files := CanonicalFiles(folder);
    var sorted := InsertionSort(files, NameLe);
    FilterPermutation(sorted, files, Conforms);
    var v, w := Visited(folder), Filter(files, Conforms);
    forall f
      ensures f in v <==> f in w
    {
      assert f in v <==> f in multiset(v);
      assert f in w <==> f in multiset(w);
    }
  }

  /** The rows of `f` that a run copies into the ledger when it visits `f`. */
  predicate ContributesRow(f: SnapshotFile, r: Row, x: LedgerRow) {
    r in f.rows && IsRankedSeries(r.series) && Project(r) == x
  }

  lemma AppendedRowsSound(folder: seq<SnapshotFile>, x: LedgerRow)
    requires x in Appended(folder)
    ensures exists f, r :: f in folder && IsCanonicalFile(f) && Conforms(f) && ContributesRow(f, r, x)
  {
    var v := Visited(folder);
    var parts := MapSeq(v, Extract);
    VisitedFiles(folder);
    ConcatMembership(parts, x);
    var i :| 0 <= i < |parts| && x in parts[i];
    var f := v[i];
    assert f in v;
    var kept := Filter(f.rows, InRankedSeries);
    var k :| 0 <= k < |Extract(f)| && Extract(f)[k] == x;
    var r := kept[k];
    assert r in kept;
    assert ContributesRow(f, r, x);
  }

  lemma AppendedRowsComplete(folder: seq<SnapshotFile>, f: SnapshotFile, r: Row, x: LedgerRow)
    requires f in folder && IsCanonicalFile(f) && Conforms(f) && ContributesRow(f, r, x)
    ensures x in Appended(folder)
  {
    var v := Visited(folder);
    var parts := MapSeq(v, Extract);
    VisitedFiles(folder);
    assert f in v;
    var i :| 0 <= i < |v| && v[i] == f;
    var kept := Filter(f.rows, InRankedSeries);
    assert r in kept;
    var k :| 0 <= k < |kept| && kept[k] == r;
    assert parts[i][k] == x;
    ConcatMembership(parts, x);
  }

  /** A row is appended exactly when some conforming canonical file of the
      folder has an EQ or BE row that projects to it. */
  lemma AppendedRows(folder: seq<SnapshotFile>, x: LedgerRow)
    ensures x in Appended(folder)
      <==> exists f, r :: f in folder && IsCanonicalFile(f) && Conforms(f) && ContributesRow(f, r, x)
  {
    if x in Appended(folder) {
      AppendedRowsSound(folder, x);
    }
    if exists f, r :: f in folder && IsCanonicalFile(f) && Conforms(f) && ContributesRow(f, r, x) {
      var f, r :| f in folder && IsCanonicalFile(f) && Conforms(f) && ContributesRow(f, r, x);
      AppendedRowsComplete(folder, f, r, x);
    }
  }

  /** Every ledger row a run appends belongs to series EQ or BE. */
  lemma AppendedSeries(folder: seq<SnapshotFile>)
    ensures forall x :: x in Appended(folder) ==> IsRankedSeries(x.series)
  {
    forall x | x in Appended(folder)
      ensures IsRankedSeries(x.series)
    {
      AppendedRowsSound(folder, x);
    }
  }

  /** When the folder lists its canonical files already in name order, the
      rows are appended file by file in listing order. */
  lemma AppendedInListingOrder(folder: seq<SnapshotFile>)
    requires SortedBy(CanonicalFiles(folder), NameLe)
    ensures Appended(folder) == Concat(MapSeq(Filter(CanonicalFiles(folder), Conforms), Extract))
  {
    SortOfSortedIsIdentity(CanonicalFiles(folder), NameLe);
  }

  /** The ledger is not idempotent: running twice on unchanged files appends
      the same rows twice. */
  lemma RerunAppendsAgain(folder: seq<SnapshotFile>, ledger: Option<seq<LedgerRow>>)
    requires HasData(folder)
    ensures ProcessFiles(folder, ProcessFiles(folder, ledger))
         == Some(ledger.GetOr([]) + Appended(folder) + Appended(folder))
    ensures |ProcessFiles(folder, ProcessFiles(folder, None)).value|
         == 2 * |ProcessFiles(folder, None).value|
  {
    var once := ProcessFiles(folder, ledger);
    assert once.GetOr([]) == ledger.GetOr([]) + Appended(folder);
  }
}
