/** The two kinds of snapshot file name the screener handles. A raw
    exchange download is named like `BhavCopy_NSE_CM_0_0_0_20240105_F_0000.csv`,
    its trading date being the seventh `_`-separated field in `%Y%m%d`
    form; ingestion renames it to the canonical `2024-01-05-NSE-NEW.csv`,
    whose date is read back from the first three `-`-separated fields. */
module FileNames {
  import opened Base
  import opened Strings
  import opened Dates

  const RawPrefix: string := "BhavCopy"
  const RawExtension: string := ".csv"
  const CanonicalSuffix: string := "-NSE-NEW.csv"

  /** Index of the date token among the `_`-separated fields of a raw name. */
  const RawDateField: nat := 6

  /** Selected by the ingestion loop: `startswith("BhavCopy")` and `endswith(".csv")`. */
  predicate IsRawName(name: string) {
    StartsWith(name, RawPrefix) && EndsWith(name, RawExtension)
  }

  /** Selected by routing, aggregation and ranking: `endswith("-NSE-NEW.csv")`. */
  predicate IsCanonicalName(name: string) {
    EndsWith(name, CanonicalSuffix)
  }

  /** Why a raw name yields no date: too few fields (`IndexError`) or a
      date token `strptime` rejects (`ValueError`). */
  datatype NameError = MissingDateField | UnparsableDate

  /** `strptime(filename.split("_")[6], "%Y%m%d")`. */
  function RawDate(name: string): (r: Result<Date, NameError>)
    ensures r.Ok? ==> Valid(r.value)
  {
    var fields := Split(name, '_');
    if |fields| <= RawDateField then Err(MissingDateField)
    else
      match ParseCompact(fields[RawDateField])
      case Some(d) => Ok(d)
      case None => Err(UnparsableDate)
  }

  /** `file_date.strftime("%Y-%m-%d") + "-NSE-NEW.csv"`. */
  function CanonicalName(d: Date): (name: string)
    requires Valid(d)
    ensures IsCanonicalName(name)
  {
    var name := FormatDashed(d) + CanonicalSuffix;
    assert name[|name| - |CanonicalSuffix|..] == CanonicalSuffix;
    name
  }

  /** `strptime("-".join(filename.split("-")[0:3]), "%Y-%m-%d")`; the
      slice keeps fewer than three fields when there are fewer. */
  function CanonicalDate(name: string): (r: Option<Date>)
    ensures r.Some? ==> Valid(r.value)
  {
    var fields := Split(name, '-');
    ParseDashed(Join(fields[..Min(3, |fields|)], '-'))
  }

  /** A raw name lacks a date field exactly when it has fewer than six
      underscores. */
  lemma RawDateMissingField(name: string)
    ensures RawDate(name) == Err(MissingDateField) <==> CountChar(name, '_') < 6
  {
    SplitLength(name, '_');
  }

  /** A name whose seventh `_`-field renders a valid date yields that date,
      whatever the other fields say. */
  lemma RawDateOfRendering(before: seq<string>, d: Date, after: seq<string>)
    requires |before| == RawDateField
    requires forall i :: 0 <= i < |before| ==> '_' !in before[i]
    requires forall i :: 0 <= i < |after| ==> '_' !in after[i]
    requires Valid(d)
    ensures RawDate(Join(before + [FormatCompact(d)] + after, '_')) == Ok(d)
  {
    var parts := before + [FormatCompact(d)] + after;
    FormatsAvoidSeparators(d);
    forall i | 0 <= i < |parts|
      ensures '_' !in parts[i]
    {
      if i < |before| {
        assert parts[i] == before[i];
      } else if i > |before| {
        assert parts[i] == after[i - |before| - 1];
      }
    }
    SplitJoin(parts, '_');
    assert parts[RawDateField] == FormatCompact(d);
    ParseCompactExact(FormatCompact(d), d);
  }

  /** A raw name yields a date only when its seventh field is exactly that
      date's `%Y%m%d` rendering. */
  lemma RawDateSound(name: string, d: Date)
    requires RawDate(name) == Ok(d)
    ensures Valid(d)
    ensures CountChar(name, '_') >= RawDateField
    ensures Split(name, '_')[RawDateField] == FormatCompact(d)
  {
    SplitLength(name, '_');
    ParseCompactExact(Split(name, '_')[RawDateField], d);
  }

  /** The canonical name as five dash-free fields joined by dashes. */
  lemma CanonicalNameFields(d: Date)
    requires Valid(d)
    ensures CanonicalName(d)
         == Join([Pad4(d.year), Pad2(d.month), Pad2(d.day), "NSE", "NEW.csv"], '-')
  {
    var y, m, dd := Pad4(d.year), Pad2(d.month), Pad2(d.day);
    DashedFields(d);
    var parts := [y, m, dd, "NSE", "NEW.csv"];
    assert parts[1..] == [m, dd, "NSE", "NEW.csv"];
    assert parts[1..][1..] == [dd, "NSE", "NEW.csv"];
    assert parts[1..][1..][1..] == ["NSE", "NEW.csv"];
    assert parts[1..][1..][1..][1..] == ["NEW.csv"];
    var j3 := Join(["NSE", "NEW.csv"], '-');
    assert j3 == "NSE-NEW.csv";
    var j2 := Join([dd, "NSE", "NEW.csv"], '-');
    assert j2 == dd + ['-'] + j3;
    var j1 := Join([m, dd, "NSE", "NEW.csv"], '-');
    assert j1 == m + ['-'] + j2;
    assert Join(parts, '-') == y + ['-'] + j1;
    assert CanonicalName(d) == y + ['-'] + (m + ['-'] + (dd + ['-'] + j3));
  }

  /** Reading the date back from a canonical name gives the date it was
      made from. */
  lemma CanonicalRoundTrip(d: Date)
    requires Valid(d)
    ensures CanonicalDate(CanonicalName(d)) == Some(d)
  {
    var y, m, dd := Pad4(d.year), Pad2(d.month), Pad2(d.day);
    var parts := [y, m, dd, "NSE", "NEW.csv"];
    DashedFields(d);
    CanonicalNameFields(d);
    assert forall i :: 0 <= i < |parts| ==> '-' !in parts[i];
    SplitJoin(parts, '-');
    var first := parts[..3];
    assert first == [y, m, dd];
    assert first[1..] == [m, dd] && first[1..][1..] == [dd];
    assert Join(first[1..], '-') == m + ['-'] + dd;
    assert Join(first, '-') == y + ['-'] + (m + ['-'] + dd);
    ParseDashedExact(FormatDashed(d), d);
  }

  /** A name reads back as `d` only if it begins with `d`'s dashed
      rendering. */
  lemma CanonicalDateSound(name: string, d: Date)
    requires CanonicalDate(name) == Some(d)
    ensures Valid(d)
    ensures StartsWith(name, FormatDashed(d))
  {
    var fields := Split(name, '-');
    var k := Min(3, |fields|);
    ParseDashedExact(Join(fields[..k], '-'), d);
    JoinPrefix(fields, k, '-');
  }

  /** A raw download never reads as a canonical date, since it starts with
      a letter rather than a digit. */
  lemma RawNameHasNoCanonicalDate(name: string)
    requires IsRawName(name)
    ensures CanonicalDate(name).None?
  {
    if CanonicalDate(name).Some? {
      var d := CanonicalDate(name).value;
      CanonicalDateSound(name, d);
      assert false;
    }
  }

  /** A canonical name is never picked up again as a raw download. */
  lemma CanonicalNameIsNotRaw(d: Date)
    requires Valid(d)
    ensures !IsRawName(CanonicalName(d))
  {
    var n := CanonicalName(d);
    assert n[0] == Pad4(d.year)[0];
    assert IsDigit(n[0]);
  }
}
