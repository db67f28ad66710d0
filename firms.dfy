/**
  The NASA FIRMS CSV-to-record transform `parseFirmsCSV` of
  frontend_vue_app/src/services/firms.ts.

  The text is trimmed and cut into lines; the first line is the header,
  and each of eleven known column names is resolved to the first header
  position whose lower-cased name equals it. Every later line is tokenized
  and becomes a record when its latitude and longitude both parse to finite
  numbers; other lines are dropped silently.

  `parseFloat` followed by `isFinite` is the parameter `parse`: `Some(v)`
  when the text parses to the finite number `v`, `None` otherwise.
 */
module Firms {
  import opened Wrappers
  import opened Text
  import opened CsvTokenizer

  /** One fire detection. An unset optional field is JavaScript's `undefined`. */
  datatype FirmsRecord = FirmsRecord(
    latitude: real,
    longitude: real,
    acqDate: Option<string>,
    acqTime: Option<string>,
    confidence: Option<string>,
    dayNight: Option<string>,
    brightT31: Option<string>,
    brightness: Option<string>,
    frp: Option<string>,
    satellite: Option<string>,
    version: Option<string>)

  /** The resolved header position of each known column; `None` for the source's -1. */
  datatype Columns = Columns(
    latitude: Option<nat>,
    longitude: Option<nat>,
    acqDate: Option<nat>,
    acqTime: Option<nat>,
    confidence: Option<nat>,
    dayNight: Option<nat>,
    brightT31: Option<nat>,
    brightness: Option<nat>,
    frp: Option<nat>,
    satellite: Option<nat>,
    version: Option<nat>)

  /**
    `header.findIndex((h) => h.toLowerCase() === name)`: the first position
    whose lower-cased name is `name`, or `None` when there is none.
   */
  function FindIndex(header: seq<string>, name: string): (r: Option<nat>)
  {
    if header == [] then None
    else if Lower(header[0]) == name then Some(0)
    else
      match FindIndex(header[1..], name)
      case None => None
      case Some(k) => Some(k + 1)
  }

  /**
    `FindIndex` finds the first matching position: the name at the result
    matches and none before it does; `None` means no name matches.
   */
  lemma {:induction false} FindIndexSpec(header: seq<string>, name: string)
    ensures var r := FindIndex(header, name);
      && (r.Some? ==> r.value < |header| && Lower(header[r.value]) == name)
      && (r.Some? ==> forall j :: 0 <= j < r.value ==> Lower(header[j]) != name)
      && (r.None? <==> forall j :: 0 <= j < |header| ==> Lower(header[j]) != name)
  {
    if header != [] && Lower(header[0]) != name {
      FindIndexSpec(header[1..], name);
      assert forall j :: 1 <= j < |header| ==> header[j] == header[1..][j - 1];
    }
  }

  /** The eleven `idx(...)` lookups. */
  function ResolveColumns(header: seq<string>): Columns
  {
    Columns(
      FindIndex(header, "latitude"),
      FindIndex(header, "longitude"),
      FindIndex(header, "acq_date"),
      FindIndex(header, "acq_time"),
      FindIndex(header, "confidence"),
      FindIndex(header, "daynight"),
      FindIndex(header, "bright_t31"),
      FindIndex(header, "brightness"),
      FindIndex(header, "frp"),
      FindIndex(header, "satellite"),
      FindIndex(header, "version"))
  }

  /** `lines[0].split(',').map((h) => h.trim())`: the header is not quote-aware. */
  function HeaderNames(line: string): (r: seq<string>)
  {
    TrimAll(Split(line, ','))
  }

  /**
    `row[i]`: the entry at a resolved position, unset when the column is
    absent from the header or the row is too short.
   */
  function Lookup(row: seq<string>, i: Option<nat>): (r: Option<string>)
    ensures r.Some? <==> i.Some? && i.value < |row|
    ensures r.Some? ==> r.value == row[i.value]
  {
    if i.Some? && i.value < |row| then Some(row[i.value]) else None
  }

  /**
    `parseFloat(row[i])` kept only when finite. A missing entry is
    `parseFloat(undefined)`, which is NaN, so it gives no coordinate.
   */
  function Coordinate(row: seq<string>, i: Option<nat>, parse: string -> Option<real>): Option<real>
  {
    match Lookup(row, i)
    case None => None
    case Some(s) => parse(s)
  }

  /** The record one data line yields, or `None` when the line is skipped. */
  function RowRecord(cols: Columns, line: string, parse: string -> Option<real>): Option<FirmsRecord>
  {
    var row := Tokenize(line);
    if |row| == 0 then None
    else
      var lat := Coordinate(row, cols.latitude, parse);
      var lng := Coordinate(row, cols.longitude, parse);
      if lat.None? || lng.None? then None
      else
        Some(FirmsRecord(
          lat.value,
          lng.value,
          Lookup(row, cols.acqDate),
          Lookup(row, cols.acqTime),
          Lookup(row, cols.confidence),
          Lookup(row, cols.dayNight),
          Lookup(row, cols.brightT31),
          Lookup(row, cols.brightness),
          Lookup(row, cols.frp),
          Lookup(row, cols.satellite),
          Lookup(row, cols.version)))
  }

  /** What each data line of `rows` yields, line by line. */
  function Outcomes(cols: Columns, rows: seq<string>, parse: string -> Option<real>): (r: seq<Option<FirmsRecord>>)
    ensures |r| == |rows|
    ensures forall k :: 0 <= k < |rows| ==> r[k] == RowRecord(cols, rows[k], parse)
  {
    seq(|rows|, k requires 0 <= k < |rows| => RowRecord(cols, rows[k], parse))
  }

  /** The values present in `xs`, in order. */
  function Present<T>(xs: seq<Option<T>>): seq<T>
  {
    if xs == [] then []
    else
      Present(xs[..|xs| - 1]) +
        match xs[|xs| - 1]
        case None => []
        case Some(v) => [v]
  }

  /** Appending one outcome appends its value, if any. */
  lemma PresentSnoc<T>(xs: seq<Option<T>>, x: Option<T>)
    ensures Present(xs + [x]) == Present(xs) + (if x.Some? then [x.value] else [])
  {
    assert (xs + [x])[..|xs|] == xs;
  }

  /** There are never more values than outcomes. */
  lemma {:induction false} PresentLength<T>(xs: seq<Option<T>>)
    ensures |Present(xs)| <= |xs|
  {
    if xs != [] {
      PresentLength(xs[..|xs| - 1]);
    }
  }

  /** Without any value present, nothing is kept. */
  lemma {:induction false} PresentNone<T>(xs: seq<Option<T>>)
    requires forall k :: 0 <= k < |xs| ==> xs[k].None?
    ensures Present(xs) == []
  {
    if xs != [] {
      PresentNone(xs[..|xs| - 1]);
    }
  }

  /**
    The positions of the present values. `Present(xs)` is exactly the
    values at those positions, in increasing order, and no present value is
    left out: it is an order-preserving filter of `xs`.
   */
  ghost function Kept<T>(xs: seq<Option<T>>): (ks: seq<nat>)
    ensures |ks| == |Present(xs)|
    ensures forall a, b :: 0 <= a < b < |ks| ==> ks[a] < ks[b]
    ensures forall a :: 0 <= a < |ks| ==> ks[a] < |xs| && xs[ks[a]] == Some(Present(xs)[a])
    ensures forall j :: 0 <= j < |xs| ==> (xs[j].Some? <==> j in ks)
  {
    if xs == [] then []
    else
      var n := |xs| - 1;
      var ks := Kept(xs[..n]);
      if xs[n].Some? then ks + [n] else ks
  }

  /** The records of the data lines `rows`, in order, skipped lines left out. */
  function Records(cols: Columns, rows: seq<string>, parse: string -> Option<real>): seq<FirmsRecord>
  {
    Present(Outcomes(cols, rows, parse))
  }

  /** `csv.trim().split(/\r?\n/)`. */
  function Lines(csv: string): (r: seq<string>)
  {
    SplitLines(Trim(csv))
  }

  /** The columns a header line resolves to. */
  function HeaderColumns(line: string): Columns
  {
    ResolveColumns(HeaderNames(line))
  }

  /** The records of `lines`: the first is the header, the others are data lines. */
  function FromLines(lines: seq<string>, parse: string -> Option<real>): seq<FirmsRecord>
  {
    if |lines| < 2 then [] else Records(HeaderColumns(lines[0]), lines[1..], parse)
  }

  /** What `parseFirmsCSV(csv)` returns. */
  function ParseFirms(csv: string, parse: string -> Option<real>): seq<FirmsRecord>
  {
    FromLines(Lines(csv), parse)
  }

  /** Widening a slice by one element appends that element. */
  lemma SliceExtend<T>(s: seq<T>, lo: nat, hi: nat)
    requires lo <= hi < |s|
    ensures s[lo..hi + 1] == s[lo..hi] + [s[hi]]
  {
  }

  /** Appending a data line appends the record it yields, if any. */
  lemma RecordsSnoc(cols: Columns, rows: seq<string>, line: string, parse: string -> Option<real>)
    ensures Records(cols, rows + [line], parse) ==
      Records(cols, rows, parse) + (var o := RowRecord(cols, line, parse); if o.Some? then [o.value] else [])
  {
    assert Outcomes(cols, rows + [line], parse) == Outcomes(cols, rows, parse) + [RowRecord(cols, line, parse)];
    PresentSnoc(Outcomes(cols, rows, parse), RowRecord(cols, line, parse));
  }

  /**
    A data line yields a record exactly when both coordinates parse; the
    record then holds those two numbers and, for every optional column, the
    row's entry at its position, unset when the column is absent or the row
    is too short. A tokenized line is never empty, so the `!row.length`
    skip never applies.
   */
  lemma RowRecordSpec(cols: Columns, line: string, parse: string -> Option<real>)
    ensures var row := Tokenize(line);
      var lat := Coordinate(row, cols.latitude, parse);
      var lng := Coordinate(row, cols.longitude, parse);
      && |row| > 0
      && (RowRecord(cols, line, parse).Some? <==> lat.Some? && lng.Some?)
      && (RowRecord(cols, line, parse).Some? ==>
          var r := RowRecord(cols, line, parse).value;
          && Some(r.latitude) == lat && Some(r.longitude) == lng
          && r.acqDate == Lookup(row, cols.acqDate)
          && r.acqTime == Lookup(row, cols.acqTime)
          && r.confidence == Lookup(row, cols.confidence)
          && r.dayNight == Lookup(row, cols.dayNight)
          && r.brightT31 == Lookup(row, cols.brightT31)
          && r.brightness == Lookup(row, cols.brightness)
          && r.frp == Lookup(row, cols.frp)
          && r.satellite == Lookup(row, cols.satellite)
          && r.version == Lookup(row, cols.version))
  {
    TokenizeFields(line);
  }

  /** There are never more records than data lines. */
  lemma RecordsLength(cols: Columns, rows: seq<string>, parse: string -> Option<real>)
    ensures |Records(cols, rows, parse)| <= |rows|
  {
    PresentLength(Outcomes(cols, rows, parse));
  }

  /** Without a latitude or a longitude column no line yields a record. */
  lemma RecordsWithoutCoordinates(cols: Columns, rows: seq<string>, parse: string -> Option<real>)
    requires cols.latitude.None? || cols.longitude.None?
    ensures Records(cols, rows, parse) == []
  {
    PresentNone(Outcomes(cols, rows, parse));
  }

  /**
    Each record is built from its own source line: its coordinates are the
    finite parses of that line's latitude and longitude entries, and its
    optional fields are that line's entries at the resolved positions.
   */
  lemma RecordSource(cols: Columns, rows: seq<string>, parse: string -> Option<real>, a: nat)
    requires a < |Records(cols, rows, parse)|
    ensures var j := Kept(Outcomes(cols, rows, parse))[a];
      var r := Records(cols, rows, parse)[a];
      var row := Tokenize(rows[j]);
      && j < |rows|
      && Coordinate(row, cols.latitude, parse) == Some(r.latitude)
      && Coordinate(row, cols.longitude, parse) == Some(r.longitude)
      && r.acqDate == Lookup(row, cols.acqDate)
      && r.acqTime == Lookup(row, cols.acqTime)
      && r.confidence == Lookup(row, cols.confidence)
      && r.dayNight == Lookup(row, cols.dayNight)
      && r.brightT31 == Lookup(row, cols.brightT31)
      && r.brightness == Lookup(row, cols.brightness)
      && r.frp == Lookup(row, cols.frp)
      && r.satellite == Lookup(row, cols.satellite)
      && r.version == Lookup(row, cols.version)
  {
    var j := Kept(Outcomes(cols, rows, parse))[a];
    RowRecordSpec(cols, rows[j], parse);
  }

  /** A column the header lacks is unset in every record. */
  lemma AbsentColumnUnset(cols: Columns, rows: seq<string>, parse: string -> Option<real>)
    ensures forall r :: r in Records(cols, rows, parse) ==>
      (cols.acqDate.None? ==> r.acqDate.None?) &&
      (cols.acqTime.None? ==> r.acqTime.None?) &&
      (cols.confidence.None? ==> r.confidence.None?) &&
      (cols.dayNight.None? ==> r.dayNight.None?) &&
      (cols.brightT31.None? ==> r.brightT31.None?) &&
      (cols.brightness.None? ==> r.brightness.None?) &&
      (cols.frp.None? ==> r.frp.None?) &&
      (cols.satellite.None? ==> r.satellite.None?) &&
      (cols.version.None? ==> r.version.None?)
  {
    var out := Records(cols, rows, parse);
    forall a | 0 <= a < |out| {
      RecordSource(cols, rows, parse, a);
    }
  }

  /** Resolution ignores the case of the header names. */
  lemma {:induction false} FindIndexIgnoresCase(h1: seq<string>, h2: seq<string>, name: string)
    requires |h1| == |h2|
    requires forall k :: 0 <= k < |h1| ==> Lower(h1[k]) == Lower(h2[k])
    ensures FindIndex(h1, name) == FindIndex(h2, name)
  {
    if h1 != [] {
      FindIndexIgnoresCase(h1[1..], h2[1..], name);
    }
  }

  /** Headers equal up to case, such as `Latitude,Longitude` and `latitude,longitude`, resolve alike. */
  lemma ResolveIgnoresCase(h1: seq<string>, h2: seq<string>)
    requires |h1| == |h2|
    requires forall k :: 0 <= k < |h1| ==> Lower(h1[k]) == Lower(h2[k])
    ensures ResolveColumns(h1) == ResolveColumns(h2)
  {
    FindIndexIgnoresCase(h1, h2, "latitude");
    FindIndexIgnoresCase(h1, h2, "longitude");
    FindIndexIgnoresCase(h1, h2, "acq_date");
    FindIndexIgnoresCase(h1, h2, "acq_time");
    FindIndexIgnoresCase(h1, h2, "confidence");
    FindIndexIgnoresCase(h1, h2, "daynight");
    FindIndexIgnoresCase(h1, h2, "bright_t31");
    FindIndexIgnoresCase(h1, h2, "brightness");
    FindIndexIgnoresCase(h1, h2, "frp");
    FindIndexIgnoresCase(h1, h2, "satellite");
    FindIndexIgnoresCase(h1, h2, "version");
  }

  /** There are at most as many records as data lines. */
  lemma FromLinesLength(lines: seq<string>, parse: string -> Option<real>)
    ensures lines != [] ==> |FromLines(lines, parse)| <= |lines| - 1
  {
    if |lines| < 2 {
    } else {
      RecordsLength(HeaderColumns(lines[0]), lines[1..], parse);
    }
  }

  /** A header without a `latitude` or a `longitude` column gives no records. */
  lemma FromLinesWithoutCoordinates(lines: seq<string>, parse: string -> Option<real>)
    requires |lines| >= 1
    requires HeaderColumns(lines[0]).latitude.None? || HeaderColumns(lines[0]).longitude.None?
    ensures FromLines(lines, parse) == []
  {
    if |lines| < 2 {
    } else {
      RecordsWithoutCoordinates(HeaderColumns(lines[0]), lines[1..], parse);
    }
  }

  /** Text without a line break after trimming is at most a header: no records. */
  lemma ParseFirmsSingleLine(csv: string, parse: string -> Option<real>)
    requires '\n' !in Trim(csv)
    ensures ParseFirms(csv, parse) == []
  {
  }

  /** There are at most as many records as line breaks in the trimmed text. */
  lemma ParseFirmsLength(csv: string, parse: string -> Option<real>)
    ensures |ParseFirms(csv, parse)| <= Count(Trim(csv), '\n')
  {
    FromLinesLength(Lines(csv), parse);
  }

  /** A header without a `latitude` or a `longitude` column gives no records. */
  lemma ParseFirmsWithoutCoordinates(csv: string, parse: string -> Option<real>)
    requires var cols := HeaderColumns(Lines(csv)[0]);
      cols.latitude.None? || cols.longitude.None?
    ensures ParseFirms(csv, parse) == []
  {
    FromLinesWithoutCoordinates(Lines(csv), parse);
  }

  /**
    One turn of the loop over the data lines: tokenize the line, skip it
    (`None`) when it is empty or a coordinate does not parse, and otherwise
    build its record.
   */
  method ReadRow(cols: Columns, line: string, parse: string -> Option<real>) returns (rec: Option<FirmsRecord>)
    ensures rec == RowRecord(cols, line, parse)
  {
    var row := SafeSplitCSV(line);
    if |row| == 0 {
      return None;
    }
    var lat := Coordinate(row, cols.latitude, parse);
    var lng := Coordinate(row, cols.longitude, parse);
    if lat.None? || lng.None? {
      return None;
    }
    rec := Some(FirmsRecord(
      lat.value,
      lng.value,
      Lookup(row, cols.acqDate),
      Lookup(row, cols.acqTime),
      Lookup(row, cols.confidence),
      Lookup(row, cols.dayNight),
      Lookup(row, cols.brightT31),
      Lookup(row, cols.brightness),
      Lookup(row, cols.frp),
      Lookup(row, cols.satellite),
      Lookup(row, cols.version)));
  }

  /** The loop of `parseFirmsCSV` over the data lines `lines[1..]`, given the resolved columns. */
  method ReadRows(cols: Columns, lines: seq<string>, parse: string -> Option<real>) returns (out: seq<FirmsRecord>)
    requires |lines| >= 1
    ensures out == Records(cols, lines[1..], parse)
  {
    out := [];
    for i := 1 to |lines|
      invariant out == Records(cols, lines[1..i], parse)
    {
      SliceExtend(lines, 1, i);
      RecordsSnoc(cols, lines[1..i], lines[i], parse);
      var rec := ReadRow(cols, lines[i], parse);
      if rec.Some? {
        out := out + [rec.value];
      }
    }
    assert lines[1..|lines|] == lines[1..];
  }

  /** `parseFirmsCSV`: resolve the header once, then one pass over the data lines. */
  method ParseFirmsCSV(csv: string, parse: string -> Option<real>) returns (out: seq<FirmsRecord>)
    ensures out == ParseFirms(csv, parse)
    ensures |out| <= Count(Trim(csv), '\n')
  {
    ParseFirmsLength(csv, parse);
    var lines := SplitLines(Trim(csv));
    if |lines| < 2 {
      return [];
    }
    var header := TrimAll(Split(lines[0], ','));
    var cols := ResolveColumns(header);
    out := ReadRows(cols, lines, parse);
  }
}
