/**
 * Timestamp repair done by the version-3 format driver while it opens a
 * file: choosing a second opinion of the start time from a periodic sensor,
 * moving the correlator sync time forward in whole ADC wrap periods,
 * resynthesising the timestamps, undoing a counter wrap inside the
 * observation and discarding a duplicated final dump.
 *
 * Timestamps are seconds as `real`; floating-point rounding is not modelled.
 */
module TimestampRepair {
  import opened Wrappers
  import Text

  datatype Error =
    | BrokenFile          // timestamp count differs from the number of dumps in the data
    | AmbiguousTruthValue // `if` on a numpy array holding more than one element
    | IndexError          // first record of a sensor dataset without records

  /** Number of distinct values of the 48-bit ADC sample counter that
      timestamps the correlator data: 2^48. */
  const AdcCounterStates: real := 281474976710656.0

  /** Seconds after which the sample counter wraps: 2^48 samples at `timeScale` samples per second. */
  function AdcWrapPeriod(timeScale: real): (p: real)
    requires timeScale != 0.0
    ensures p * timeScale == AdcCounterStates
    ensures p > 0.0 <==> timeScale > 0.0
  {
    AdcCounterStates / timeScale
  }

  // ---------------------------------------------------------------------
  // Second opinion of the start time from periodic sensors
  // ---------------------------------------------------------------------

  /** Name suffixes of the sensors that report periodically for the whole observation. */
  const PeriodicSensors: seq<string> :=
    ["air_temperature", "air_relative_humidity", "air_pressure",
     "pos_actual_scan_azim", "pos_actual_scan_elev"]

  /** A sensor of the cache as far as the start-time heuristic sees it:
      its name and the timestamps of its records, in order. A sensor dataset
      may hold no records at all. */
  datatype SensorRecords = SensorRecords(name: string, timestamps: seq<real>)

  function Abs(x: real): real
  {
    if x < 0.0 then -x else x
  }

  /** The sensor name ends with one of the periodic sensor names. */
  predicate Periodic(name: string)
  {
    exists k :: 0 <= k < |PeriodicSensors| && Text.EndsWith(name, PeriodicSensors[k])
  }

  /** The sensor's records last within 10 seconds as long as the data. */
  predicate SpansData(s: SensorRecords, dataDuration: real)
  {
    |s.timestamps| > 0 && Abs(dataDuration - (s.timestamps[|s.timestamps| - 1] - s.timestamps[0])) < 10.0
  }

  /** The search stops at this sensor: it is periodic and either spans the
      data or has no first record to read. */
  predicate StopsSearch(s: SensorRecords, dataDuration: real)
  {
    Periodic(s.name) && (|s.timestamps| == 0 || SpansData(s, dataDuration))
  }

  /** Start time proposed by the first periodic sensor (in the cache's
      iteration order) whose records span the data; 0.0 when there is none.
      Reading the first record of an empty periodic sensor met before such a
      sensor is an IndexError. */
  method SensorStartTime(sensors: seq<SensorRecords>, dataDuration: real) returns (r: Result<real, Error>)
    ensures (forall i :: 0 <= i < |sensors| ==> !StopsSearch(sensors[i], dataDuration)) ==> r == Success(0.0)
    ensures forall i :: 0 <= i < |sensors| && StopsSearch(sensors[i], dataDuration)
                        && (forall j :: 0 <= j < i ==> !StopsSearch(sensors[j], dataDuration)) ==>
      r == if |sensors[i].timestamps| == 0 then Failure(IndexError) else Success(sensors[i].timestamps[0])
  {
    for i := 0 to |sensors|
      invariant forall j :: 0 <= j < i ==> !StopsSearch(sensors[j], dataDuration)
    {
      var periodic := false;
      for k := 0 to |PeriodicSensors|
        invariant periodic <==> exists m :: 0 <= m < k && Text.EndsWith(sensors[i].name, PeriodicSensors[m])
      {
        periodic := periodic || Text.EndsWith(sensors[i].name, PeriodicSensors[k]);
      }
      if periodic {
        var records := sensors[i].timestamps;
        if |records| == 0 {
          return Failure(IndexError);
        }
        var proposed := records[0];
        var sensorDuration := records[|records| - 1] - proposed;
        if Abs(dataDuration - sensorDuration) < 10.0 {
          return Success(proposed);
        }
      }
    }
    return Success(0.0);
  }

  // ---------------------------------------------------------------------
  // Moving the sync time forward
  // ---------------------------------------------------------------------

  /** The sync time is moved forward in whole wrap periods until the sensor
      start time lies at most one period after it. `steps` is the number of
      periods added: the least one that brings the gap within a period.
      The loop only ends when the period is positive or no step is needed. */
  method AdvanceSyncTime(sensorStart: real, origin: real, wrapPeriod: real)
    returns (newOrigin: real, steps: nat)
    requires wrapPeriod > 0.0 || sensorStart - origin <= wrapPeriod
    ensures newOrigin == origin + steps as real * wrapPeriod
    ensures sensorStart - newOrigin <= wrapPeriod
    ensures steps > 0 ==> sensorStart - (newOrigin - wrapPeriod) > wrapPeriod
    ensures steps == 0 <==> sensorStart - origin <= wrapPeriod
  {
    newOrigin, steps := origin, 0;
    ghost var bound: nat := 0;
    if wrapPeriod > 0.0 {
      bound := PeriodsCovering(sensorStart - origin, wrapPeriod);
    }
    while sensorStart - newOrigin > wrapPeriod
      invariant newOrigin == origin + steps as real * wrapPeriod
      invariant steps > 0 ==> sensorStart - (newOrigin - wrapPeriod) > wrapPeriod
      invariant steps > 0 ==> sensorStart - origin > wrapPeriod
      invariant wrapPeriod <= 0.0 ==> steps == 0
      decreases bound - steps
    {
      assert (steps as real + 1.0) * wrapPeriod == steps as real * wrapPeriod + wrapPeriod;
      FewerPeriods(steps as real + 1.0, bound as real, sensorStart - origin, wrapPeriod);
      newOrigin := newOrigin + wrapPeriod;
      steps := steps + 1;
    }
  }

  /** Some whole number of positive periods reaches any gap. */
  lemma PeriodsCovering(gap: real, w: real) returns (n: nat)
    requires w > 0.0
    ensures gap <= n as real * w
  {
    if gap <= 0.0 {
      n := 0;
    } else {
      n := (gap / w).Floor + 1;
      assert n as real >= gap / w;
      assert n as real * w >= gap / w * w;
    }
  }

  /** A multiple that stays below a gap reached by `b` periods has fewer than `b` periods. */
  lemma FewerPeriods(a: real, b: real, gap: real, w: real)
    requires w > 0.0 && a * w < gap && gap <= b * w
    ensures a < b
  {
  }

  // ---------------------------------------------------------------------
  // Resynthesis from the sample counter
  // ---------------------------------------------------------------------

  /** Timestamps recomputed from the sample counter with a new scale and
      origin: `counter = oldScale * (t - oldOrigin)`, `t' = counter / newScale + newOrigin`. */
  function Resynthesise(ts: seq<real>, oldScale: real, oldOrigin: real, newScale: real, newOrigin: real): (r: seq<real>)
    requires newScale != 0.0
    ensures |r| == |ts|
  {
    seq(|ts|, i requires 0 <= i < |ts| => oldScale * (ts[i] - oldOrigin) / newScale + newOrigin)
  }

  /** With the scale unchanged, resynthesis shifts every timestamp by exactly
      the change of origin; with the origin unchanged too, the timestamps are identical. */
  lemma ResynthesiseSameScale(ts: seq<real>, scale: real, oldOrigin: real, newOrigin: real)
    requires scale != 0.0
    ensures forall i :: 0 <= i < |ts| ==>
      Resynthesise(ts, scale, oldOrigin, scale, newOrigin)[i] == ts[i] + (newOrigin - oldOrigin)
    ensures Resynthesise(ts, scale, oldOrigin, scale, oldOrigin) == ts
  {
    var r := Resynthesise(ts, scale, oldOrigin, scale, newOrigin);
    forall i | 0 <= i < |ts|
      ensures r[i] == ts[i] + (newOrigin - oldOrigin)
    {
      var d := ts[i] - oldOrigin;
      assert scale * d / scale == d;
    }
    var same := Resynthesise(ts, scale, oldOrigin, scale, oldOrigin);
    forall i | 0 <= i < |ts|
      ensures same[i] == ts[i]
    {
      var d := ts[i] - oldOrigin;
      assert scale * d / scale == d;
    }
  }

  // ---------------------------------------------------------------------
  // Removing wraps inside the observation
  // ---------------------------------------------------------------------

  /** `np.diff`: the step from each timestamp to the next. */
  function Diff(ts: seq<real>): (d: seq<real>)
    ensures |d| == if |ts| == 0 then 0 else |ts| - 1
    ensures forall i {:trigger d[i]} :: 0 <= i < |d| ==> d[i] == ts[i + 1] - ts[i]
  {
    if |ts| <= 1 then [] else seq(|ts| - 1, i requires 0 <= i < |ts| - 1 => ts[i + 1] - ts[i])
  }

  /** `np.nonzero(d < 0)[0]`: the positions of the negative steps, in increasing order. */
  function NegativeSteps(d: seq<real>): (w: seq<nat>)
    ensures forall k :: 0 <= k < |w| ==> w[k] < |d| && d[w[k]] < 0.0
    ensures forall k, m :: 0 <= k < m < |w| ==> w[k] < w[m]
    ensures forall i :: 0 <= i < |d| && d[i] < 0.0 ==> i in w
  {
    if |d| == 0 then []
    else NegativeSteps(d[..|d| - 1]) + (if d[|d| - 1] < 0.0 then [|d| - 1] else [])
  }

  /** Truth value of an index array under numpy's rules: empty is false, a lone
      element is its own truth value, several elements are an error. */
  function ArrayTruth(w: seq<nat>): (r: Result<bool, Error>)
    ensures r.Failure? <==> |w| > 1
    ensures r == Success(true) <==> |w| == 1 && w[0] != 0
  {
    if |w| == 0 then Success(false)
    else if |w| == 1 then Success(w[0] != 0)
    else Failure(AmbiguousTruthValue)
  }

  /** Whether the driver corrects `ts`: its negative steps form a truthy array. */
  predicate FixApplies(ts: seq<real>)
  {
    ArrayTruth(NegativeSteps(Diff(ts))) == Success(true)
  }

  /** `np.cumsum(np.r_[first, deltas])`. */
  function CumulativeSum(first: real, deltas: seq<real>): (r: seq<real>)
    ensures |r| == |deltas| + 1 && r[0] == first
  {
    if |deltas| == 0 then [first]
    else
      var prefix := CumulativeSum(first, deltas[..|deltas| - 1]);
      prefix + [prefix[|prefix| - 1] + deltas[|deltas| - 1]]
  }

  /** Each element of a cumulative sum is the previous one plus its step. */
  lemma {:induction false} CumulativeSumStep(first: real, deltas: seq<real>, i: nat)
    requires i < |deltas|
    ensures CumulativeSum(first, deltas)[i + 1] == CumulativeSum(first, deltas)[i] + deltas[i]
  {
    if i < |deltas| - 1 {
      var prefix := deltas[..|deltas| - 1];
      CumulativeSumStep(first, prefix, i);
      assert CumulativeSum(first, deltas)[..|deltas|] == CumulativeSum(first, prefix);
    }
  }

  /** The steps of a series without its last element are its steps without the last. */
  lemma DiffFront(ts: seq<real>)
    requires |ts| > 1
    ensures Diff(ts[..|ts| - 1]) == Diff(ts)[..|ts| - 2]
  {
    var front, d := ts[..|ts| - 1], Diff(ts);
    forall i | 0 <= i < |ts| - 2 ensures Diff(front)[i] == d[i] {
      assert Diff(front)[i] == front[i + 1] - front[i];
    }
  }

  /** Summing the steps of a series back up from its first element gives the series. */
  lemma {:induction false} CumulativeSumOfDiff(ts: seq<real>)
    requires |ts| > 0
    ensures CumulativeSum(ts[0], Diff(ts)) == ts
  {
    if |ts| > 1 {
      var n := |ts|;
      var front, d := ts[..n - 1], Diff(ts);
      assert front[0] == ts[0];
      CumulativeSumOfDiff(front);
      DiffFront(ts);
      assert d[..|d| - 1] == Diff(front);
      assert CumulativeSum(ts[0], d) == front + [front[n - 2] + d[n - 2]];
      assert front + [ts[n - 1]] == ts;
    }
  }

  /** `time_deltas[time_wraps] += wrapPeriod`, done in place on the array of steps. */
  method AddWrapPeriod(deltas: array<real>, wraps: seq<nat>, wrapPeriod: real)
    requires forall k :: 0 <= k < |wraps| ==> wraps[k] < deltas.Length
    requires forall k, m :: 0 <= k < m < |wraps| ==> wraps[k] < wraps[m]
    modifies deltas
    ensures forall i :: 0 <= i < deltas.Length ==>
      deltas[i] == old(deltas[i]) + (if i in wraps then wrapPeriod else 0.0)
  {
    for k := 0 to |wraps|
      invariant forall i :: 0 <= i < deltas.Length ==>
        deltas[i] == old(deltas[i]) + (if i in wraps[..k] then wrapPeriod else 0.0)
    {
      deltas[wraps[k]] := deltas[wraps[k]] + wrapPeriod;
      assert wraps[..k + 1] == wraps[..k] + [wraps[k]];
    }
    assert wraps[..|wraps|] == wraps;
  }

  /** `np.cumsum(np.r_[first, deltas])` as the running total it is. */
  method CumSum(first: real, deltas: seq<real>) returns (r: seq<real>)
    ensures r == CumulativeSum(first, deltas)
  {
    r := [first];
    var total := first;
    for i := 0 to |deltas|
      invariant r == CumulativeSum(first, deltas[..i])
      invariant total == r[i]
    {
      assert deltas[..i + 1][..i] == deltas[..i];
      total := total + deltas[i];
      r := r + [total];
    }
    assert deltas[..|deltas|] == deltas;
  }

  /** Any decrease between consecutive timestamps is taken to be a counter
      wrap and has one wrap period added to that step, after which the series
      is summed back up from its first timestamp. This happens only when the
      array of wrap positions is truthy: a single wrap at step 0 is left in
      place, and several wraps raise. */
  method RemoveTimeWraps(ts: seq<real>, wrapPeriod: real) returns (r: Result<seq<real>, Error>)
    ensures r.Failure? <==> |NegativeSteps(Diff(ts))| > 1
    ensures r.Success? && !FixApplies(ts) ==> r.value == ts
    ensures r.Success? ==> |r.value| == |ts|
    ensures r.Success? && |ts| > 0 ==> r.value[0] == ts[0]
    ensures r.Success? && FixApplies(ts) ==>
      forall i :: 0 <= i < |ts| - 1 ==>
        r.value[i + 1] - r.value[i] == ts[i + 1] - ts[i] + (if ts[i + 1] - ts[i] < 0.0 then wrapPeriod else 0.0)
  {
    var d := Diff(ts);
    var wraps := NegativeSteps(d);
    var truth := ArrayTruth(wraps);
    if truth.Failure? {
      return Failure(truth.error);
    }
    if !truth.value {
      return Success(ts);
    }
    var deltas := new real[|d|](i requires 0 <= i < |d| => d[i]);
    AddWrapPeriod(deltas, wraps, wrapPeriod);
    forall i | 0 <= i < |d|
      ensures deltas[i] == d[i] + (if d[i] < 0.0 then wrapPeriod else 0.0)
    {
      assert (i in wraps) <==> d[i] < 0.0;
    }
    var fixed := CumSum(ts[0], deltas[..]);
    CorrectedSteps(ts, deltas[..], wrapPeriod);
    return Success(fixed);
  }

  /** Summing up steps that each gained a wrap period where they were
      negative gives a series whose steps are exactly those. */
  lemma CorrectedSteps(ts: seq<real>, deltas: seq<real>, wrapPeriod: real)
    requires |ts| > 0 && |deltas| == |ts| - 1
    requires forall i :: 0 <= i < |deltas| ==>
      deltas[i] == Diff(ts)[i] + (if Diff(ts)[i] < 0.0 then wrapPeriod else 0.0)
    ensures forall i :: 0 <= i < |ts| - 1 ==>
      CumulativeSum(ts[0], deltas)[i + 1] - CumulativeSum(ts[0], deltas)[i]
      == ts[i + 1] - ts[i] + (if ts[i + 1] - ts[i] < 0.0 then wrapPeriod else 0.0)
  {
    forall i | 0 <= i < |ts| - 1
      ensures CumulativeSum(ts[0], deltas)[i + 1] - CumulativeSum(ts[0], deltas)[i]
              == ts[i + 1] - ts[i] + (if ts[i + 1] - ts[i] < 0.0 then wrapPeriod else 0.0)
    {
      CumulativeSumStep(ts[0], deltas, i);
    }
  }

  /** A series with no decrease is never touched. */
  lemma MonotoneSeriesUntouched(ts: seq<real>)
    requires forall i :: 0 <= i < |ts| - 1 ==> ts[i] <= ts[i + 1]
    ensures !FixApplies(ts)
    ensures NegativeSteps(Diff(ts)) == []
  {
    NoNegativeSteps(Diff(ts));
  }

  /** Steps that never decrease leave no wrap positions. */
  lemma {:induction false} NoNegativeSteps(d: seq<real>)
    requires forall i :: 0 <= i < |d| ==> d[i] >= 0.0
    ensures NegativeSteps(d) == []
  {
    if |d| > 0 {
      NoNegativeSteps(d[..|d| - 1]);
    }
  }

  // ---------------------------------------------------------------------
  // Duplicate final dump
  // ---------------------------------------------------------------------

  /** The timestamp count must equal the number of dumps in the visibility
      data; then a final timestamp equal to the one before it (left by the
      capture stop packet) is dropped, once. */
  function DiscardDuplicateFinalDump(ts: seq<real>, visDumps: nat): (r: Result<seq<real>, Error>)
    ensures r.Failure? <==> |ts| != visDumps
    ensures r.Success? ==> |ts| - 1 <= |r.value| <= |ts|
    ensures r.Success? ==> r.value == ts[..|r.value|]
    ensures r.Success? ==> (|r.value| < |ts| <==> |ts| > 1 && ts[|ts| - 1] == ts[|ts| - 2])
  {
    if |ts| != visDumps then Failure(BrokenFile)
    else
      var numDumps := if |ts| > 1 && ts[|ts| - 1] == ts[|ts| - 2] then |ts| - 1 else |ts|;
      Success(ts[..numDumps])
  }

  /** Only one duplicate is removed: a triplicated final timestamp leaves a duplicate behind. */
  lemma OnlyOneDuplicateDiscarded(t: real, u: real)
    ensures DiscardDuplicateFinalDump([u, t, t, t], 4) == Success([u, t, t])
  {
    assert [u, t, t, t][..3] == [u, t, t];
  }
}
