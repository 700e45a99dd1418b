/** The tables the screener reads: one row per instrument and trading day
    in a canonical snapshot file, under the canonical column names. */
module Snapshots {
  import opened Base
  import opened FileNames

  /** A row under the columns Symbol, Date, Open, High, Low, Close, Volume,
      Name and Series. */
  datatype Row = Row(
    symbol: string,
    date: string,
    open: real,
    high: real,
    low: real,
    close: real,
    volume: int,
    name: string,
    series: string)

  /** A file of a data folder: its name, the column headers it carries,
      and its rows. */
  datatype SnapshotFile = SnapshotFile(name: string, columns: set<string>, rows: seq<Row>)

  /** The columns a canonical file must carry to be aggregated. */
  const RequiredColumns: set<string> :=
    {"Symbol", "Date", "Open", "High", "Low", "Close", "Volume", "Name", "Series"}

  predicate Conforms(f: SnapshotFile) {
    RequiredColumns <= f.columns
  }

  /** The market segments that take part in the ledger and the rankings. */
  predicate IsRankedSeries(series: string) {
    series == "EQ" || series == "BE"
  }

  predicate InRankedSeries(r: Row) {
    IsRankedSeries(r.series)
  }

  predicate IsCanonicalFile(f: SnapshotFile) {
    IsCanonicalName(f.name)
  }

  /** The files of a folder listing whose names end in `-NSE-NEW.csv`, in
      listing order. */
  function CanonicalFiles(listing: seq<SnapshotFile>): (r: seq<SnapshotFile>)
    ensures forall f :: f in r <==> f in listing && IsCanonicalFile(f)
    ensures Sublist(r, listing)
  {
    FilterIsSublist(listing, IsCanonicalFile);
    Filter(listing, IsCanonicalFile)
  }
}
