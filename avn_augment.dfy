/**
 * The augmentation script that splices an antenna position log (a CSV file
 * with a millisecond `Timestamp` column and six position columns) and a
 * static environment series into a recorded HDF5 file: the check that the
 * log covers the RF recording, the two loops that bracket the recording in
 * the log, the loop that turns the bracketed rows into sensor records, the
 * datasets those records are written to, and the environment series.
 */
module AvnAugment {
  import opened Wrappers

  /** A sensor record: timestamp, value and status. */
  datatype Record = Record(timestamp: real, value: real, status: string)

  const Nominal: string := "nominal"

  /** One row of the position log; the timestamp is in milliseconds. */
  datatype CsvRow = CsvRow(
    timestampMs: real,
    azimReq: real, azimDesired: real, azimActual: real,
    elevReq: real, elevDesired: real, elevActual: real)

  /** The six position columns of the log. */
  datatype Column = AzimReq | AzimDesired | AzimActual | ElevReq | ElevDesired | ElevActual

  function ColumnValue(row: CsvRow, c: Column): real
  {
    match c
    case AzimReq => row.azimReq
    case AzimDesired => row.azimDesired
    case AzimActual => row.azimActual
    case ElevReq => row.elevReq
    case ElevDesired => row.elevDesired
    case ElevActual => row.elevActual
  }

  /** A log time in seconds. */
  function Secs(ms: real): real
  {
    ms / 1000.0
  }

  function Timestamps(rows: seq<CsvRow>): (ts: seq<real>)
    ensures |ts| == |rows| && forall i :: 0 <= i < |rows| ==> ts[i] == rows[i].timestampMs
  {
    seq(|rows|, i requires 0 <= i < |rows| => rows[i].timestampMs)
  }

  // ---------------------------------------------------------------------
  // Bracketing the RF recording in the log
  // ---------------------------------------------------------------------

  /** Index of the first log row at or after `beginTime` (seconds), or the
      number of rows when there is none. */
  function FirstNotBefore(times: seq<real>, beginTime: real): (i: nat)
    ensures i <= |times|
    ensures forall k :: 0 <= k < i ==> Secs(times[k]) < beginTime
    ensures i < |times| ==> Secs(times[i]) >= beginTime
  {
    if |times| == 0 then 0
    else if Secs(times[0]) >= beginTime then 0
    else 1 + FirstNotBefore(times[1..], beginTime)
  }

  /** Index of the last log row at or before `endTime` (seconds), or -1
      when there is none. */
  function LastNotAfter(times: seq<real>, endTime: real): (j: int)
    ensures -1 <= j < |times|
    ensures forall k :: j < k < |times| ==> Secs(times[k]) > endTime
    ensures j >= 0 ==> Secs(times[j]) <= endTime
  {
    if |times| == 0 then -1
    else if Secs(times[|times| - 1]) <= endTime then |times| - 1
    else LastNotAfter(times[..|times| - 1], endTime)
  }

  /** Result of the search: the script exits because the log does not cover
      the recording, or it dies on a lookup of a row label the log does not
      have, or it finds the rows `lower` (the last before the recording)
      and `upper` (the first after it). */
  datatype SearchOutcome = Aborted | Crashed | Window(lower: nat, upper: nat)

  /** The search the script performs, as one definition: an empty log has no
      first row; a log that does not cover [beginTime, endTime] aborts; the
      lower search dies when it runs off the log or when the first row is
      already at the start (the row before it, label -1, does not exist);
      the upper search dies when it runs off the front of the log or when
      the last row is already at the end (the row after it does not exist). */
  function WindowSearch(times: seq<real>, beginTime: real, endTime: real): SearchOutcome
  {
    if |times| == 0 then Crashed
    else if beginTime < Secs(times[0]) || endTime > Secs(times[|times| - 1]) then Aborted
    else
      var i := FirstNotBefore(times, beginTime);
      var j := LastNotAfter(times, endTime);
      if i == |times| || i == 0 then Crashed
      else if j < 0 || j == |times| - 1 then Crashed
      else Window(i - 1, j + 1)
  }

  /** The lower search: steps forward while the row lies before the
      recording, then steps back one row. None when it runs off the log. */
  method LowerIndex(times: seq<real>, beginTime: real) returns (lower: Option<int>)
    ensures FirstNotBefore(times, beginTime) == |times| ==> lower == None
    ensures FirstNotBefore(times, beginTime) < |times| ==> lower == Some(FirstNotBefore(times, beginTime) - 1)
  {
    var i := 0;
    while i < |times| && Secs(times[i]) < beginTime
      invariant 0 <= i <= |times|
      invariant forall k :: 0 <= k < i ==> Secs(times[k]) < beginTime
    {
      i := i + 1;
    }
    FirstNotBeforeIsFirst(times, beginTime, i);
    if i == |times| {
      return None;
    }
    lower := Some(i - 1);
  }

  /** The upper search: steps backward while the row lies after the
      recording, then steps forward one row. None when it runs off the front. */
  method UpperIndex(times: seq<real>, endTime: real) returns (upper: Option<int>)
    ensures LastNotAfter(times, endTime) < 0 ==> upper == None
    ensures LastNotAfter(times, endTime) >= 0 ==> upper == Some(LastNotAfter(times, endTime) + 1)
  {
    var j := |times| - 1;
    while j >= 0 && Secs(times[j]) > endTime
      invariant -1 <= j < |times|
      invariant forall k :: j < k < |times| ==> Secs(times[k]) > endTime
    {
      j := j - 1;
    }
    LastNotAfterIsLast(times, endTime, j);
    if j < 0 {
      return None;
    }
    upper := Some(j + 1);
  }

  /** The first qualifying row is unique. */
  lemma FirstNotBeforeIsFirst(times: seq<real>, beginTime: real, i: nat)
    requires i <= |times|
    requires forall k :: 0 <= k < i ==> Secs(times[k]) < beginTime
    requires i < |times| ==> Secs(times[i]) >= beginTime
    ensures FirstNotBefore(times, beginTime) == i
  {
  }

  /** The last qualifying row is unique. */
  lemma LastNotAfterIsLast(times: seq<real>, endTime: real, j: int)
    requires -1 <= j < |times|
    requires forall k :: j < k < |times| ==> Secs(times[k]) > endTime
    requires j >= 0 ==> Secs(times[j]) <= endTime
    ensures LastNotAfter(times, endTime) == j
  {
  }

  /** The coverage check and both searches, stopping where the script
      exits or dies. */
  method FindWindow(times: seq<real>, beginTime: real, endTime: real) returns (outcome: SearchOutcome)
    ensures outcome == WindowSearch(times, beginTime, endTime)
  {
    if |times| == 0 {
      return Crashed;
    }
    if beginTime < Secs(times[0]) || endTime > Secs(times[|times| - 1]) {
      return Aborted;
    }
    var lower := LowerIndex(times, beginTime);
    if lower.None? || lower.value == -1 {
      return Crashed;
    }
    var upper := UpperIndex(times, endTime);
    if upper.None? || upper.value == |times| {
      return Crashed;
    }
    outcome := Window(lower.value, upper.value);
  }

  /** The script exits exactly when the log is not empty and does not cover
      the recording. */
  lemma WindowSearchAborts(times: seq<real>, beginTime: real, endTime: real)
    ensures WindowSearch(times, beginTime, endTime) == Aborted <==>
      |times| > 0 && (beginTime < Secs(times[0]) || endTime > Secs(times[|times| - 1]))
  {
  }

  /** A window found brackets the recording: row `lower` lies before its
      start and the next row does not, row `upper` lies after its end and the
      row before it does not. */
  lemma WindowBrackets(times: seq<real>, beginTime: real, endTime: real)
    requires WindowSearch(times, beginTime, endTime).Window?
    ensures var w := WindowSearch(times, beginTime, endTime);
      && w.lower + 1 < |times| && w.upper < |times| && w.upper >= 1
      && Secs(times[w.lower]) < beginTime <= Secs(times[w.lower + 1])
      && Secs(times[w.upper - 1]) <= endTime < Secs(times[w.upper])
  {
  }

  /** A log whose first row falls exactly on the start of the recording,
      or whose last row falls exactly on its end, covers the recording and
      still kills the script. */
  lemma ExactBoundaryCrashes(times: seq<real>, beginTime: real, endTime: real)
    requires |times| > 0
    requires Secs(times[0]) <= beginTime && endTime <= Secs(times[|times| - 1])
    requires Secs(times[0]) == beginTime || Secs(times[|times| - 1]) == endTime
    ensures WindowSearch(times, beginTime, endTime) == Crashed
  {
    if Secs(times[0]) == beginTime {
      assert FirstNotBefore(times, beginTime) == 0;
    } else {
      var i := FirstNotBefore(times, beginTime);
      if i < |times| && i > 0 {
        assert LastNotAfter(times, endTime) == |times| - 1;
      }
    }
  }

  predicate Sorted(times: seq<real>)
  {
    forall a, b :: 0 <= a < b < |times| ==> times[a] <= times[b]
  }

  /** For a time-ordered log that starts strictly before the recording and
      ends strictly after it, the search succeeds, and every row strictly
      between `lower` and `upper` lies within the recording. */
  lemma SortedLogFindsWindow(times: seq<real>, beginTime: real, endTime: real)
    requires Sorted(times) && |times| > 0 && beginTime <= endTime
    requires Secs(times[0]) < beginTime && endTime < Secs(times[|times| - 1])
    ensures WindowSearch(times, beginTime, endTime).Window?
    ensures var w := WindowSearch(times, beginTime, endTime);
      forall k :: w.lower < k < w.upper ==> beginTime <= Secs(times[k]) <= endTime
  {
    var n := |times|;
    var i := FirstNotBefore(times, beginTime);
    var j := LastNotAfter(times, endTime);
    assert Secs(times[n - 1]) > endTime >= beginTime;
    assert i < n;
    assert Secs(times[0]) <= endTime;
    assert j >= 0;
    forall k | i - 1 < k < j + 1
      ensures beginTime <= Secs(times[k]) <= endTime
    {
      assert times[i] <= times[k] <= times[j];
    }
  }

  // ---------------------------------------------------------------------
  // Position records
  // ---------------------------------------------------------------------

  /** Number of rows in the slice [lower, upper) of a log with `n` rows. */
  function SliceLength(n: nat, lower: nat, upper: nat): (len: nat)
    ensures len > 0 ==> lower + len <= n
    ensures lower <= upper <= n ==> len == upper - lower
    ensures upper <= lower ==> len == 0
  {
    var stop := if upper < n then upper else n;
    if stop > lower then stop - lower else 0
  }

  /** The records of column `c` for the `count` rows from `lower`: each
      carries the row's raw millisecond timestamp, its value in `c` and the
      nominal status. */
  function ColumnRecords(rows: seq<CsvRow>, lower: nat, count: nat, c: Column): seq<Record>
    requires count > 0 ==> lower + count <= |rows|
  {
    seq(count, i requires 0 <= i < count => Record(rows[lower + i].timestampMs, ColumnValue(rows[lower + i], c), Nominal))
  }

  /** The six record lists, one per position column. */
  datatype PositionLists = PositionLists(
    azimReq: seq<Record>, azimDesired: seq<Record>, azimActual: seq<Record>,
    elevReq: seq<Record>, elevDesired: seq<Record>, elevActual: seq<Record>)

  function ListOf(lists: PositionLists, c: Column): seq<Record>
  {
    match c
    case AzimReq => lists.azimReq
    case AzimDesired => lists.azimDesired
    case AzimActual => lists.azimActual
    case ElevReq => lists.elevReq
    case ElevDesired => lists.elevDesired
    case ElevActual => lists.elevActual
  }

  /** The lists for the rows of the slice [lower, upper). */
  function PositionListsOf(rows: seq<CsvRow>, lower: nat, upper: nat): (lists: PositionLists)
    ensures forall c :: |ListOf(lists, c)| == SliceLength(|rows|, lower, upper)
  {
    var count := SliceLength(|rows|, lower, upper);
    PositionLists(
      ColumnRecords(rows, lower, count, AzimReq), ColumnRecords(rows, lower, count, AzimDesired),
      ColumnRecords(rows, lower, count, AzimActual), ColumnRecords(rows, lower, count, ElevReq),
      ColumnRecords(rows, lower, count, ElevDesired), ColumnRecords(rows, lower, count, ElevActual))
  }

  /** Every list holds one record per row of the slice, in row order, with
      the row's timestamp, its value in that list's column and the nominal
      status; so all six lists share their timestamps. */
  lemma PositionListsContents(rows: seq<CsvRow>, lower: nat, upper: nat, c: Column, i: nat)
    requires i < SliceLength(|rows|, lower, upper)
    ensures lower + i < |rows|
    ensures ListOf(PositionListsOf(rows, lower, upper), c)[i]
            == Record(rows[lower + i].timestampMs, ColumnValue(rows[lower + i], c), Nominal)
  {
  }

  lemma ColumnRecordsStep(rows: seq<CsvRow>, lower: nat, i: nat, c: Column)
    requires lower + i < |rows|
    ensures ColumnRecords(rows, lower, i + 1, c)
            == ColumnRecords(rows, lower, i, c) + [Record(rows[lower + i].timestampMs, ColumnValue(rows[lower + i], c), Nominal)]
  {
  }

  /** The record lists built row by row. */
  method BuildPositionLists(rows: seq<CsvRow>, lower: nat, upper: nat) returns (lists: PositionLists)
    ensures lists == PositionListsOf(rows, lower, upper)
  {
    var count := SliceLength(|rows|, lower, upper);
    var azReq, azDes, azAct, elReq, elDes, elAct := [], [], [], [], [], [];
    for i := 0 to count
      invariant azReq == ColumnRecords(rows, lower, i, AzimReq)
      invariant azDes == ColumnRecords(rows, lower, i, AzimDesired)
      invariant azAct == ColumnRecords(rows, lower, i, AzimActual)
      invariant elReq == ColumnRecords(rows, lower, i, ElevReq)
      invariant elDes == ColumnRecords(rows, lower, i, ElevDesired)
      invariant elAct == ColumnRecords(rows, lower, i, ElevActual)
    {
      forall c {
        ColumnRecordsStep(rows, lower, i, c);
      }
      var row := rows[lower + i];
      azReq := azReq + [Record(row.timestampMs, row.azimReq, Nominal)];
      azDes := azDes + [Record(row.timestampMs, row.azimDesired, Nominal)];
      azAct := azAct + [Record(row.timestampMs, row.azimActual, Nominal)];
      elReq := elReq + [Record(row.timestampMs, row.elevReq, Nominal)];
      elDes := elDes + [Record(row.timestampMs, row.elevDesired, Nominal)];
      elAct := elAct + [Record(row.timestampMs, row.elevActual, Nominal)];
    }
    lists := PositionLists(azReq, azDes, azAct, elReq, elDes, elAct);
  }

  /** The contents of the six position datasets, named after the column
      each is meant to hold. */
  datatype PositionDatasets = PositionDatasets(
    requestAzim: seq<Record>, desiredAzim: seq<Record>, actualAzim: seq<Record>,
    requestElev: seq<Record>, desiredElev: seq<Record>, actualElev: seq<Record>)

  function DatasetFor(d: PositionDatasets, c: Column): seq<Record>
  {
    match c
    case AzimReq => d.requestAzim
    case AzimDesired => d.desiredAzim
    case AzimActual => d.actualAzim
    case ElevReq => d.requestElev
    case ElevDesired => d.desiredElev
    case ElevActual => d.actualElev
  }

  /** The requested column of the same axis as `c`. */
  function RequestColumnOf(c: Column): Column
  {
    match c
    case AzimReq | AzimDesired | AzimActual => AzimReq
    case ElevReq | ElevDesired | ElevActual => ElevReq
  }

  /** The datasets as the script writes them: the desired and actual
      datasets of each axis are written from that axis's requested list. */
  function WrittenDatasets(lists: PositionLists): PositionDatasets
  {
    PositionDatasets(lists.azimReq, lists.azimReq, lists.azimReq, lists.elevReq, lists.elevReq, lists.elevReq)
  }

  /** Every written dataset holds the requested positions of its axis. */
  lemma WrittenDatasetsHoldRequests(rows: seq<CsvRow>, lower: nat, upper: nat, c: Column)
    ensures DatasetFor(WrittenDatasets(PositionListsOf(rows, lower, upper)), c)
            == ListOf(PositionListsOf(rows, lower, upper), RequestColumnOf(c))
  {
  }

  /** A one-row log whose desired azimuth differs from the requested one:
      the desired-azimuth dataset does not hold the desired azimuth. */
  lemma WrittenDesiredAzimuthIsWrong()
    ensures var rows := [CsvRow(1000.0, 10.0, 11.0, 12.0, 20.0, 21.0, 22.0)];
      DatasetFor(WrittenDatasets(PositionListsOf(rows, 0, 1)), AzimDesired)
      != ColumnRecords(rows, 0, 1, AzimDesired)
  {
    var rows := [CsvRow(1000.0, 10.0, 11.0, 12.0, 20.0, 21.0, 22.0)];
    assert DatasetFor(WrittenDatasets(PositionListsOf(rows, 0, 1)), AzimDesired)[0].value == 10.0;
    assert ColumnRecords(rows, 0, 1, AzimDesired)[0].value == 11.0;
  }

  /** The datasets as evidently intended: each from its own list. */
  function IntendedDatasets(lists: PositionLists): PositionDatasets
  {
    PositionDatasets(lists.azimReq, lists.azimDesired, lists.azimActual, lists.elevReq, lists.elevDesired, lists.elevActual)
  }

  /** Every intended dataset holds the records of the column it is named
      after, for the rows of the slice. */
  lemma IntendedDatasetsHoldTheirColumns(rows: seq<CsvRow>, lower: nat, upper: nat)
    ensures forall c :: DatasetFor(IntendedDatasets(PositionListsOf(rows, lower, upper)), c)
                        == ColumnRecords(rows, lower, SliceLength(|rows|, lower, upper), c)
  {
  }

  /** The rows the script copies: the slice [lower, upper), which stops at
      the last row at or before the end of the recording. */
  lemma CopiedRowsEndWithinRecording(times: seq<real>, beginTime: real, endTime: real)
    requires beginTime <= endTime && WindowSearch(times, beginTime, endTime).Window?
    ensures var w := WindowSearch(times, beginTime, endTime);
      && SliceLength(|times|, w.lower, w.upper) == w.upper - w.lower
      && Secs(times[w.lower]) < beginTime
      && Secs(times[w.lower + SliceLength(|times|, w.lower, w.upper) - 1]) <= endTime
  {
    WindowBrackets(times, beginTime, endTime);
    var w := WindowSearch(times, beginTime, endTime);
    assert Secs(times[w.lower]) <= endTime;
  }

  /** A log with rows every second from 0 s to 3 s and a recording from
      0.5 s to 2.5 s: the copied rows end at 2 s, so the last half second of
      the recording has no position after it. */
  lemma CopiedRowsMissRecordingEnd()
    ensures var times := [0.0, 1000.0, 2000.0, 3000.0];
      && WindowSearch(times, 0.5, 2.5) == Window(0, 3)
      && Secs(times[0 + SliceLength(4, 0, 3) - 1]) < 2.5
  {
    var times := [0.0, 1000.0, 2000.0, 3000.0];
    assert FirstNotBefore(times, 0.5) == 1 by {
      FirstNotBeforeIsFirst(times, 0.5, 1);
    }
    assert LastNotAfter(times, 2.5) == 2 by {
      LastNotAfterIsLast(times, 2.5, 2);
    }
  }

  /** Number of rows the evidently intended slice [lower, upper] copies. */
  function BracketingLength(n: nat, lower: nat, upper: nat): (len: nat)
    ensures len > 0 ==> lower + len <= n
    ensures lower <= upper < n ==> len == upper + 1 - lower
  {
    SliceLength(n, lower, upper + 1)
  }

  /** The rows from `lower` up to and including `upper` bracket the whole
      recording: the first lies before its start, the last after its end. */
  lemma BracketingRowsCoverRecording(times: seq<real>, beginTime: real, endTime: real)
    requires beginTime <= endTime && WindowSearch(times, beginTime, endTime).Window?
    ensures var w := WindowSearch(times, beginTime, endTime);
      && BracketingLength(|times|, w.lower, w.upper) == w.upper + 1 - w.lower
      && Secs(times[w.lower]) < beginTime
      && Secs(times[w.lower + BracketingLength(|times|, w.lower, w.upper) - 1]) > endTime
  {
    WindowBrackets(times, beginTime, endTime);
    var w := WindowSearch(times, beginTime, endTime);
    assert Secs(times[w.lower]) <= endTime;
  }

  /** The outcome of the position part of the script. */
  datatype AugmentOutcome = AugmentAborted | AugmentCrashed | Written(datasets: PositionDatasets)

  /** The position part of the script: the search, the record lists and the
      datasets written. */
  method AugmentPositions(rows: seq<CsvRow>, beginTime: real, endTime: real) returns (outcome: AugmentOutcome)
    ensures WindowSearch(Timestamps(rows), beginTime, endTime) == Aborted <==> outcome == AugmentAborted
    ensures WindowSearch(Timestamps(rows), beginTime, endTime) == Crashed <==> outcome == AugmentCrashed
    ensures WindowSearch(Timestamps(rows), beginTime, endTime).Window? ==>
      var w := WindowSearch(Timestamps(rows), beginTime, endTime);
      outcome == Written(WrittenDatasets(PositionListsOf(rows, w.lower, w.upper)))
  {
    var window := FindWindow(Timestamps(rows), beginTime, endTime);
    match window
    case Aborted => outcome := AugmentAborted;
    case Crashed => outcome := AugmentCrashed;
    case Window(lower, upper) =>
      var lists := BuildPositionLists(rows, lower, upper);
      outcome := Written(WrittenDatasets(lists));
  }

  /** The position part of the script as evidently intended: the copied
      rows run up to and including row `upper`, and every dataset is written
      from its own list. */
  method AugmentPositionsIntended(rows: seq<CsvRow>, beginTime: real, endTime: real) returns (outcome: AugmentOutcome)
    ensures WindowSearch(Timestamps(rows), beginTime, endTime) == Aborted <==> outcome == AugmentAborted
    ensures WindowSearch(Timestamps(rows), beginTime, endTime) == Crashed <==> outcome == AugmentCrashed
    ensures WindowSearch(Timestamps(rows), beginTime, endTime).Window? ==>
      var w := WindowSearch(Timestamps(rows), beginTime, endTime);
      && outcome.Written?
      && forall c :: DatasetFor(outcome.datasets, c)
                     == ColumnRecords(rows, w.lower, BracketingLength(|rows|, w.lower, w.upper), c)
  {
    var window := FindWindow(Timestamps(rows), beginTime, endTime);
    match window
    case Aborted => outcome := AugmentAborted;
    case Crashed => outcome := AugmentCrashed;
    case Window(lower, upper) =>
      var lists := BuildPositionLists(rows, lower, upper + 1);
      outcome := Written(IntendedDatasets(lists));
      IntendedDatasetsHoldTheirColumns(rows, lower, upper + 1);
  }

  // ---------------------------------------------------------------------
  // Environment series
  // ---------------------------------------------------------------------

  /** The environment sample times: from `beginTime` in steps of 10 s, every
      one before `endTime`. */
  function EnviroTimes(beginTime: real, endTime: real): (ts: seq<real>)
    ensures forall k :: 0 <= k < |ts| ==> ts[k] == beginTime + 10.0 * k as real && ts[k] < endTime
    ensures beginTime + 10.0 * |ts| as real >= endTime
  {
    if endTime <= beginTime then []
    else
      var count := -(((beginTime - endTime) / 10.0).Floor);
      seq(count, k requires 0 <= k < count => beginTime + 10.0 * k as real)
  }

  /** The five environment readings. */
  datatype EnviroReadings = EnviroReadings(
    temperature: real, pressure: real, humidity: real, windSpeed: real, windDirection: real)

  /** The default (dummy) readings: 30 degC, 1010 mbar, 80 percent, no wind. */
  const DefaultReadings: EnviroReadings := EnviroReadings(30.0, 1010.0, 80.0, 0.0, 0.0)

  /** The answer to the dummy-data prompt asks for the default readings when
      it starts with 'y' (in either case). */
  predicate UseDefaults(answer: string)
  {
    |answer| > 0 && (answer[0] == 'y' || answer[0] == 'Y')
  }

  function ChosenReadings(answer: string, entered: EnviroReadings): (r: EnviroReadings)
    ensures UseDefaults(answer) ==> r == DefaultReadings
    ensures !UseDefaults(answer) ==> r == entered
  {
    if UseDefaults(answer) then DefaultReadings else entered
  }

  /** The five environment record lists. */
  datatype EnviroLists = EnviroLists(
    temperature: seq<Record>, pressure: seq<Record>, humidity: seq<Record>,
    windSpeed: seq<Record>, windDirection: seq<Record>)

  /** One nominal record of `value` per sample time. */
  function ConstantSeries(times: seq<real>, value: real): seq<Record>
  {
    seq(|times|, i requires 0 <= i < |times| => Record(times[i], value, Nominal))
  }

  /** The environment lists built sample by sample. */
  method BuildEnviroLists(times: seq<real>, readings: EnviroReadings) returns (lists: EnviroLists)
    ensures lists.temperature == ConstantSeries(times, readings.temperature)
    ensures lists.pressure == ConstantSeries(times, readings.pressure)
    ensures lists.humidity == ConstantSeries(times, readings.humidity)
    ensures lists.windSpeed == ConstantSeries(times, readings.windSpeed)
    ensures lists.windDirection == ConstantSeries(times, readings.windDirection)
  {
    var temperature, pressure, humidity, windSpeed, windDirection := [], [], [], [], [];
    for i := 0 to |times|
      invariant temperature == ConstantSeries(times[..i], readings.temperature)
      invariant pressure == ConstantSeries(times[..i], readings.pressure)
      invariant humidity == ConstantSeries(times[..i], readings.humidity)
      invariant windSpeed == ConstantSeries(times[..i], readings.windSpeed)
      invariant windDirection == ConstantSeries(times[..i], readings.windDirection)
    {
      var t := times[i];
      temperature := temperature + [Record(t, readings.temperature, Nominal)];
      pressure := pressure + [Record(t, readings.pressure, Nominal)];
      humidity := humidity + [Record(t, readings.humidity, Nominal)];
      windSpeed := windSpeed + [Record(t, readings.windSpeed, Nominal)];
      windDirection := windDirection + [Record(t, readings.windDirection, Nominal)];
    }
    assert times[..|times|] == times;
    lists := EnviroLists(temperature, pressure, humidity, windSpeed, windDirection);
  }

  /** Every environment series covers the recording from its start in 10 s
      steps, one nominal record per step, all carrying the same reading. */
  lemma EnviroSeriesMeaning(beginTime: real, endTime: real, value: real)
    ensures var s := ConstantSeries(EnviroTimes(beginTime, endTime), value);
      && (forall k :: 0 <= k < |s| ==> s[k] == Record(beginTime + 10.0 * k as real, value, Nominal) && s[k].timestamp < endTime)
      && beginTime + 10.0 * |s| as real >= endTime
  {
  }
}
