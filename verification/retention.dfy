/** Retention routing: which recency folders (`3 MONTHS`, `1 MONTH`,
    `5 DAYS`) a dated snapshot is copied into, and the whole
    `sort_files_by_date` pass over the `DATA` folder, with the clock and
    the folder listings as parameters and folder contents as sets of names. */
module Retention {
  import opened Base
  import opened Strings
  import opened Dates
  import opened FileNames

  datatype Bucket = ThreeMonths | OneMonth | FiveDays

  /** `datetime` counts microseconds; instants here are microseconds since
      0001-01-01T00:00. */
  const MicrosPerDay: int := 86_400_000_000

  /** Width of each window: `weeks=12`, `weeks=4` and `days=5`. */
  function WindowDays(b: Bucket): int {
    match b
    case ThreeMonths => 12 * 7
    case OneMonth => 4 * 7
    case FiveDays => 5
  }

  /** `today - timedelta(...)` for bucket `b`. */
  function Cutoff(b: Bucket, now: int): int {
    now - WindowDays(b) * MicrosPerDay
  }

  /** The instant `strptime` gives a date: midnight at its start. */
  function Midnight(d: Date): int
    requires Valid(d)
  {
    (Ordinal(d) - 1) * MicrosPerDay
  }

  /** `copy_to_subfolders`: three independent `>=` tests against the
      cutoffs. A file is copied into a bucket exactly when it is no older
      than the bucket's window. */
  function Route(t: int, now: int): (r: set<Bucket>)
    ensures forall b :: b in r <==> now - t <= WindowDays(b) * MicrosPerDay
  {
    (if t >= Cutoff(ThreeMonths, now) then {ThreeMonths} else {})
    + (if t >= Cutoff(OneMonth, now) then {OneMonth} else {})
    + (if t >= Cutoff(FiveDays, now) then {FiveDays} else {})
  }

  /** The buckets form a superset chain: routing always yields one of four
      upward-closed sets, so whatever reaches `5 DAYS` also reaches `1 MONTH`
      and `3 MONTHS`. */
  lemma RouteChain(t: int, now: int)
    ensures FiveDays in Route(t, now) ==> OneMonth in Route(t, now)
    ensures OneMonth in Route(t, now) ==> ThreeMonths in Route(t, now)
    ensures Route(t, now) in {{}, {ThreeMonths}, {ThreeMonths, OneMonth}, {ThreeMonths, OneMonth, FiveDays}}
  {
    var r := Route(t, now);
    if FiveDays in r {
      assert r == {ThreeMonths, OneMonth, FiveDays};
    } else if OneMonth in r {
      assert r == {ThreeMonths, OneMonth};
    } else if ThreeMonths in r {
      assert r == {ThreeMonths};
    } else {
      assert r == {};
    }
  }

  /** A newer file is routed to at least the buckets of an older one. */
  lemma RouteNewerFile(t1: int, t2: int, now: int)
    requires t1 <= t2
    ensures Route(t1, now) <= Route(t2, now)
  {
  }

  /** A later clock routes a file to at most the buckets of an earlier one. */
  lemma RouteLaterClock(t: int, now1: int, now2: int)
    requires now1 <= now2
    ensures Route(t, now2) <= Route(t, now1)
  {
  }

  /** In calendar terms: a file dated no earlier than another goes to at
      least the other's buckets. */
  lemma RouteByDate(d1: Date, d2: Date, now: int)
    requires Valid(d1) && Valid(d2)
    requires !Earlier(d2, d1)
    ensures Route(Midnight(d1), now) <= Route(Midnight(d2), now)
  {
    OrdinalOrder(d2, d1);
    RouteNewerFile(Midnight(d1), Midnight(d2), now);
  }

  /** The cutoffs are inclusive: a file exactly five days old is still in
      all three buckets, one microsecond older and it leaves `5 DAYS`. */
  lemma RouteBoundary(now: int)
    ensures Route(now - 5 * MicrosPerDay, now) == {ThreeMonths, OneMonth, FiveDays}
    ensures Route(now - 5 * MicrosPerDay - 1, now) == {ThreeMonths, OneMonth}
    ensures Route(now - 84 * MicrosPerDay - 1, now) == {}
  {
    RouteChain(now - 5 * MicrosPerDay, now);
    RouteChain(now - 5 * MicrosPerDay - 1, now);
    RouteChain(now - 84 * MicrosPerDay - 1, now);
  }

  /* ---- The sort_files_by_date pass ---- */

  /** The names in each bucket folder; copying overwrites, so a folder is a set. */
  datatype Folders = Folders(threeMonths: set<string>, oneMonth: set<string>, fiveDays: set<string>) {

    function Get(b: Bucket): set<string> {
      match b
      case ThreeMonths => threeMonths
      case OneMonth => oneMonth
      case FiveDays => fiveDays
    }

    /** `shutil.copy` of `name` into every bucket of `targets`. */
    function CopyInto(name: string, targets: set<Bucket>): (f: Folders)
      ensures forall b :: f.Get(b) == Get(b) + (if b in targets then {name} else {})
    {
      Folders(
        threeMonths + (if ThreeMonths in targets then {name} else {}),
        oneMonth + (if OneMonth in targets then {name} else {}),
        fiveDays + (if FiveDays in targets then {name} else {}))
    }
  }

  /** Every file of `5 DAYS` is in `1 MONTH`, and every file of `1 MONTH` in `3 MONTHS`. */
  predicate Nested(f: Folders) {
    f.fiveDays <= f.oneMonth && f.oneMonth <= f.threeMonths
  }

  /** The state of one pass: the names in the `DATA` root, the bucket
      folders, the raw names reported as failing (in order), and the
      canonical-looking names whose date could not be read. */
  datatype Run = Run(root: set<string>, folders: Folders, rawErrors: seq<string>, nameErrors: set<string>)

  /** One iteration of the ingestion loop. On success the canonical file is
      written, the raw file removed, and the canonical file copied into its
      buckets; on failure only the error is recorded. */
  function IngestOne(s: Run, name: string, now: int): Run {
    match RawDate(name)
    case Err(_) => s.(rawErrors := s.rawErrors + [name])
    case Ok(d) =>
      var c := CanonicalName(d);
      s.(root := s.root + {c} - {name}, folders := s.folders.CopyInto(c, Route(Midnight(d), now)))
  }

  /** The ingestion loop over the raw names, in listing order. */
  function IngestAll(s: Run, raws: seq<string>, now: int): Run
    decreases |raws|
  {
    if |raws| == 0 then s else IngestAll(IngestOne(s, raws[0], now), raws[1..], now)
  }

  /** The canonical file `name` qualifies for bucket `b` by the date in its name. */
  predicate RoutesTo(name: string, now: int, b: Bucket) {
    match CanonicalDate(name)
    case Some(d) => b in Route(Midnight(d), now)
    case None => false
  }

  /** The raw name `n` is skipped with an error. */
  predicate RawFails(n: string) {
    RawDate(n).Err?
  }

  /** The names of `root` the second loop copies into bucket `b`. */
  function RoutedFrom(root: set<string>, now: int, b: Bucket): set<string> {
    set n | n in root && IsCanonicalName(n) && RoutesTo(n, now, b)
  }

  /** The names of `root` the second loop reports as unparsable. */
  function Unparsable(root: set<string>): set<string> {
    set n | n in root && IsCanonicalName(n) && CanonicalDate(n).None?
  }

  /** The raw names of `raws` whose date could be read. */
  function Ingested(raws: seq<string>): set<string> {
    set x | x in raws && RawDate(x).Ok?
  }

  /** The canonical names the ingestion loop writes for `raws`. */
  function Written(raws: seq<string>): set<string> {
    set x | x in raws && RawDate(x).Ok? :: CanonicalName(RawDate(x).value)
  }

  /** The pass before its first step: the root holds the listed names. */
  function StartOfRun(listing: seq<string>, folders: Folders): Run {
    var root := set n | n in listing;
    Run(root, folders, [], {})
  }

  /** `sort_files_by_date(folder)` with `datetime.now()` passed in as `now`:
      ingest every raw download, then route every canonical file found in
      the root, including those left by earlier runs. */
  function SortFilesByDate(listing: seq<string>, folders: Folders, now: int): Run {
    var s := IngestAll(StartOfRun(listing, folders), Filter(listing, IsRawName), now);
    s.(folders := CopyRoutable(s.folders, s.root, now), nameErrors := Unparsable(s.root))
  }

  /** The second loop of the pass: every canonical name of `root` is copied
      into the buckets its date qualifies for. */
  function CopyRoutable(f: Folders, root: set<string>, now: int): (r: Folders)
    ensures forall b :: r.Get(b) == f.Get(b) + RoutedFrom(root, now, b)
  {
    Folders(
      f.threeMonths + RoutedFrom(root, now, ThreeMonths),
      f.oneMonth + RoutedFrom(root, now, OneMonth),
      f.fiveDays + RoutedFrom(root, now, FiveDays))
  }

  /* ---- What the ingestion loop does to the root folder ---- */

  /** How the ingestion loop treats one raw name `x`: removed once it has
      been ingested successfully, untouched otherwise. */
  lemma {:induction false} IngestAllRawName(s: Run, raws: seq<string>, now: int, x: string)
    requires IsRawName(x)
    ensures RawDate(x).Ok? && x in raws ==> x !in IngestAll(s, raws, now).root
    ensures RawDate(x).Err? || x !in raws ==> (x in IngestAll(s, raws, now).root <==> x in s.root)
    decreases |raws|
  {
    if |raws| > 0 {
      var s' := IngestOne(s, raws[0], now);
      IngestAllRawName(s', raws[1..], now, x);
      if RawDate(raws[0]).Ok? {
        CanonicalNameIsNotRaw(RawDate(raws[0]).value);
      }
      assert x in raws <==> x == raws[0] || x in raws[1..];
    }
  }

  /** Every name the ingestion loop ever writes stays in the root. */
  lemma {:induction false} IngestAllKeepsCanonical(s: Run, raws: seq<string>, now: int, d: Date)
    requires Valid(d)
    requires CanonicalName(d) in s.root
    ensures CanonicalName(d) in IngestAll(s, raws, now).root
    decreases |raws|
  {
    if |raws| > 0 {
      if RawDate(raws[0]).Ok? {
        CanonicalNameIsNotRaw(d);
      }
      IngestAllKeepsCanonical(IngestOne(s, raws[0], now), raws[1..], now, d);
    }
  }

  /** The ingestion loop writes the canonical file of every raw name it reads a date from. */
  lemma {:induction false} IngestAllWritesCanonical(s: Run, raws: seq<string>, now: int, x: string)
    requires x in raws && RawDate(x).Ok?
    ensures CanonicalName(RawDate(x).value) in IngestAll(s, raws, now).root
    decreases |raws|
  {
    var s' := IngestOne(s, raws[0], now);
    if x == raws[0] {
      IngestAllKeepsCanonical(s', raws[1..], now, RawDate(x).value);
    } else {
      IngestAllWritesCanonical(s', raws[1..], now, x);
    }
  }

  /** The loop reports exactly the raw names it cannot read a date from, in order. */
  lemma {:induction false} IngestAllErrors(s: Run, raws: seq<string>, now: int)
    ensures IngestAll(s, raws, now).rawErrors == s.rawErrors + Filter(raws, RawFails)
    decreases |raws|
  {
    if |raws| > 0 {
      var s' := IngestOne(s, raws[0], now);
      IngestAllErrors(s', raws[1..], now);
      assert IngestAll(s, raws, now) == IngestAll(s', raws[1..], now);
      if RawFails(raws[0]) {
        assert s'.rawErrors == s.rawErrors + [raws[0]];
        assert Filter(raws, RawFails) == [raws[0]] + Filter(raws[1..], RawFails);
      } else {
        assert s'.rawErrors == s.rawErrors;
      }
    }
  }

  /** `Ingested` and `Written` one raw name at a time. */
  lemma IngestedStep(raws: seq<string>)
    requires |raws| > 0
    ensures var x := raws[0];
      && Ingested(raws) == (if RawDate(x).Ok? then {x} else {}) + Ingested(raws[1..])
      && Written(raws) == (if RawDate(x).Ok? then {CanonicalName(RawDate(x).value)} else {}) + Written(raws[1..])
  {
    assert forall y :: y in raws <==> y == raws[0] || y in raws[1..];
  }

  /** One successful step of the ingestion loop, in terms of the sets it
      accumulates: the written name is neither the removed raw name nor a
      later one. */
  lemma RootStep(root: set<string>, x: string, c: string, later: set<string>, written: set<string>)
    requires c != x && c !in later
    ensures ((root + {c} - {x}) - later) + written == (root - ({x} + later)) + ({c} + written)
  {
  }

  /** The ingestion loop removes exactly the raw names it reads a date
      from and adds exactly their canonical names; nothing else in the root
      changes. */
  lemma {:induction false} IngestAllRoot(s: Run, raws: seq<string>, now: int)
    requires forall i :: 0 <= i < |raws| ==> IsRawName(raws[i])
    ensures IngestAll(s, raws, now).root == (s.root - Ingested(raws)) + Written(raws)
    decreases |raws|
  {
    if |raws| == 0 {
      assert Ingested(raws) == {} && Written(raws) == {};
    } else {
      var x, rest := raws[0], raws[1..];
      var s' := IngestOne(s, x, now);
      assert forall i :: 0 <= i < |rest| ==> IsRawName(rest[i]);
      IngestAllRoot(s', rest, now);
      var later, written := Ingested(rest), Written(rest);
      assert IngestAll(s, raws, now).root == (s'.root - later) + written;
      IngestedStep(raws);
      if RawDate(x).Ok? {
        var c := CanonicalName(RawDate(x).value);
        CanonicalNameIsNotRaw(RawDate(x).value);
        assert s'.root == s.root + {c} - {x};
        RootStep(s.root, x, c, later, written);
      }
    }
  }

  /** Routing only grows when the root gains names and loses raw ones. */
  lemma RoutedFromGrows(root: set<string>, c: string, name: string, now: int, b: Bucket)
    requires IsRawName(name)
    ensures RoutedFrom(root, now, b) <= RoutedFrom(root + {c} - {name}, now, b)
  {
    RawNameHasNoCanonicalDate(name);
  }

  /** The copies the ingestion loop makes are among those the second loop
      makes anyway: the canonical name reads back as the date it was built
      from, so both loops route it alike. */
  lemma {:induction false} IngestAllFolders(s: Run, raws: seq<string>, now: int, f0: Folders, b: Bucket)
    requires forall i :: 0 <= i < |raws| ==> IsRawName(raws[i])
    requires f0.Get(b) <= s.folders.Get(b) <= f0.Get(b) + RoutedFrom(s.root, now, b)
    ensures var r := IngestAll(s, raws, now);
      f0.Get(b) <= r.folders.Get(b) <= f0.Get(b) + RoutedFrom(r.root, now, b)
    decreases |raws|
  {
    if |raws| > 0 {
      var name := raws[0];
      var s' := IngestOne(s, name, now);
      if RawDate(name).Ok? {
        var d := RawDate(name).value;
        var c := CanonicalName(d);
        RoutedFromGrows(s.root, c, name, now, b);
        CanonicalNameIsNotRaw(d);
        CanonicalRoundTrip(d);
        assert c in s'.root;
        if b in Route(Midnight(d), now) {
          assert RoutesTo(c, now, b);
          assert c in RoutedFrom(s'.root, now, b);
        }
      }
      assert forall i :: 0 <= i < |raws[1..]| ==> IsRawName(raws[1..][i]);
      IngestAllFolders(s', raws[1..], now, f0, b);
    }
  }

  /* ---- Properties of the whole pass ---- */

  /** A raw download leaves the root exactly when its date could be read:
      a failing file is skipped with nothing removed. */
  lemma RunRemovesOnlyIngested(listing: seq<string>, folders: Folders, now: int, x: string)
    requires x in listing && IsRawName(x)
    ensures x in SortFilesByDate(listing, folders, now).root <==> RawDate(x).Err?
  {
    var raws := Filter(listing, IsRawName);
    IngestAllRawName(StartOfRun(listing, folders), raws, now, x);
  }

  /** Each readable raw download yields its canonical file in the root, and
      the failing ones are reported one by one in listing order, so the
      successes and the reported failures add up to the raw files listed. */
  lemma RunIngestsAndReports(listing: seq<string>, folders: Folders, now: int)
    ensures var r := SortFilesByDate(listing, folders, now);
      && r.rawErrors == Filter(Filter(listing, IsRawName), RawFails)
      && forall x :: x in listing && IsRawName(x) && RawDate(x).Ok? ==> CanonicalName(RawDate(x).value) in r.root
  {
    var raws := Filter(listing, IsRawName);
    var s0 := StartOfRun(listing, folders);
    IngestAllErrors(s0, raws, now);
    forall x | x in listing && IsRawName(x) && RawDate(x).Ok?
      ensures CanonicalName(RawDate(x).value) in SortFilesByDate(listing, folders, now).root
    {
      IngestAllWritesCanonical(s0, raws, now, x);
    }
  }

  /** After the pass the root holds exactly the listed names, less the raw
      downloads whose date was read, plus their canonical names: the pass
      writes nothing else and removes nothing else. */
  lemma RunRootFrame(listing: seq<string>, folders: Folders, now: int)
    ensures var raws := Filter(listing, IsRawName);
      SortFilesByDate(listing, folders, now).root == ((set n | n in listing) - Ingested(raws)) + Written(raws)
  {
    var raws := Filter(listing, IsRawName);
    assert forall i :: 0 <= i < |raws| ==> raws[i] in raws;
    IngestAllRoot(StartOfRun(listing, folders), raws, now);
  }

  /** The second loop reports a name as unparsable exactly when it was
      listed, looks canonical, carries no readable date, and was not
      ingested as a raw download; no bucket gains such a name. */
  lemma RunNameErrors(listing: seq<string>, folders: Folders, now: int, n: string)
    ensures var r := SortFilesByDate(listing, folders, now);
      n in r.nameErrors <==> n in listing && IsCanonicalName(n) && CanonicalDate(n).None? && !(IsRawName(n) && RawDate(n).Ok?)
    ensures var r := SortFilesByDate(listing, folders, now);
      n in r.nameErrors ==> forall b :: n in r.folders.Get(b) <==> n in folders.Get(b)
  {
    var raws := Filter(listing, IsRawName);
    var r := SortFilesByDate(listing, folders, now);
    RunRootFrame(listing, folders, now);
    RunFolders(listing, folders, now);
    if n in Written(raws) {
      var x :| x in raws && RawDate(x).Ok? && n == CanonicalName(RawDate(x).value);
      CanonicalRoundTrip(RawDate(x).value);
    }
    assert n in Ingested(raws) <==> n in listing && IsRawName(n) && RawDate(n).Ok?;
  }

  /** After the pass each bucket holds what it held before plus every
      canonical file of the root whose name dates it inside the bucket's
      window; nothing is ever removed from a bucket. */
  lemma RunFolders(listing: seq<string>, folders: Folders, now: int)
    ensures var r := SortFilesByDate(listing, folders, now);
      forall b :: r.folders.Get(b) == folders.Get(b) + RoutedFrom(r.root, now, b)
  {
    var raws := Filter(listing, IsRawName);
    var s0 := StartOfRun(listing, folders);
    var s := IngestAll(s0, raws, now);
    forall b
      ensures folders.Get(b) <= s.folders.Get(b) <= folders.Get(b) + RoutedFrom(s.root, now, b)
    {
      IngestAllFolders(s0, raws, now, folders, b);
    }
    var r := SortFilesByDate(listing, folders, now);
    assert r.root == s.root && r.folders == CopyRoutable(s.folders, s.root, now);
  }

  /** The second loop keeps the superset chain among the names it routes. */
  lemma RoutedFromChain(root: set<string>, now: int)
    ensures RoutedFrom(root, now, FiveDays) <= RoutedFrom(root, now, OneMonth)
    ensures RoutedFrom(root, now, OneMonth) <= RoutedFrom(root, now, ThreeMonths)
  {
    forall n | n in root && CanonicalDate(n).Some?
      ensures RoutesTo(n, now, FiveDays) ==> RoutesTo(n, now, OneMonth)
      ensures RoutesTo(n, now, OneMonth) ==> RoutesTo(n, now, ThreeMonths)
    {
      RouteChain(Midnight(CanonicalDate(n).value), now);
    }
  }

  /** Adding the second loop's copies to nested folders keeps them nested. */
  lemma NestedAfterRouting(f0: Folders, f: Folders, root: set<string>, now: int)
    requires Nested(f0)
    requires forall b :: f.Get(b) == f0.Get(b) + RoutedFrom(root, now, b)
    ensures Nested(f)
  {
    RoutedFromChain(root, now);
    assert f.fiveDays == f.Get(FiveDays) && f.oneMonth == f.Get(OneMonth) && f.threeMonths == f.Get(ThreeMonths);
  }

  /** The superset chain of the buckets survives a pass, whatever the clock says. */
  lemma RunKeepsNesting(listing: seq<string>, folders: Folders, now: int)
    requires Nested(folders)
    ensures Nested(SortFilesByDate(listing, folders, now).folders)
  {
    var r := SortFilesByDate(listing, folders, now);
    RunFolders(listing, folders, now);
    NestedAfterRouting(folders, r.folders, r.root, now);
  }

  /** End to end: a readable raw download of date `d` ends up, under its
      canonical name, in exactly the buckets whose window contains `d`
      (plus any it already sat in). */
  lemma RunRoutesIngestedFile(listing: seq<string>, folders: Folders, now: int, x: string, b: Bucket)
    requires x in listing && IsRawName(x) && RawDate(x).Ok?
    ensures var d := RawDate(x).value;
      CanonicalName(d) in SortFilesByDate(listing, folders, now).folders.Get(b)
      <==> b in Route(Midnight(d), now) || CanonicalName(d) in folders.Get(b)
  {
    var d := RawDate(x).value;
    RunIngestsAndReports(listing, folders, now);
    RunFolders(listing, folders, now);
    CanonicalRoundTrip(d);
  }
}
