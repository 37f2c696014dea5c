/**
 * The categorical sensor timelines the driver partitions the observation
 * with, seen only through their `events` and `indices` arrays, and the
 * surgery the driver performs on them directly: dropping a leading segment
 * and stretching the next one back to dump 0.
 *
 * Segment `i` starts at dump `events[i]` and carries the value
 * `uniqueValues[indices[i]]`. The number of segments is the number of
 * indices; `events` may hold one more entry than `indices` (a closing event
 * after the last segment) or exactly as many.
 */
module Timeline {

  /** `events` starts at dump 0 and increases strictly, every index picks one
      of the values, and there is at least one segment. */
  predicate WellFormed(values: seq<string>, events: seq<int>, indices: seq<int>)
  {
    && 1 <= |indices| <= |events| <= |indices| + 1
    && events[0] == 0
    && (forall i, j :: 0 <= i < j < |events| ==> events[i] < events[j])
    && (forall i :: 0 <= i < |indices| ==> 0 <= indices[i] < |values|)
  }

  /** The segment covering `dump` among the first `count`: the last one that
      starts at or before it. */
  function SegmentAt(events: seq<int>, count: nat, dump: int): (i: nat)
    requires 1 <= count <= |events| && events[0] <= dump
    ensures i < count && events[i] <= dump
    ensures forall j :: i < j < count ==> events[j] > dump
  {
    if count == 1 || events[count - 1] <= dump then count - 1
    else SegmentAt(events, count - 1, dump)
  }

  /** With strictly increasing events, a segment that starts at or before
      `dump` and is followed by one starting after it is the covering one. */
  lemma SegmentAtUnique(events: seq<int>, count: nat, dump: int, i: nat)
    requires 1 <= count <= |events| && events[0] <= dump
    requires forall a, b :: 0 <= a < b < |events| ==> events[a] < events[b]
    requires i < count && events[i] <= dump
    requires i + 1 == count || events[i + 1] > dump
    ensures SegmentAt(events, count, dump) == i
  {
    if i + 1 < count {
      assert forall b :: i + 1 < b < count ==> events[i + 1] < events[b];
    }
  }

  /** Value of the timeline at `dump`. */
  function ValueAt(values: seq<string>, events: seq<int>, indices: seq<int>, dump: nat): string
    requires WellFormed(values, events, indices)
  {
    values[indices[SegmentAt(events, |indices|, dump)]]
  }

  /** The first segment dropped: its event and index go, and the event of
      the new first segment is set to dump 0. */
  function DropFirst(events: seq<int>, indices: seq<int>): (seq<int>, seq<int>)
    requires 2 <= |indices| <= |events|
  {
    ([0] + events[2..], indices[1..])
  }

  /** Dropping the first segment keeps the timeline well formed. */
  lemma DropFirstWellFormed(values: seq<string>, events: seq<int>, indices: seq<int>)
    requires WellFormed(values, events, indices) && |indices| >= 2
    ensures WellFormed(values, DropFirst(events, indices).0, DropFirst(events, indices).1)
  {
    var e := DropFirst(events, indices).0;
    forall i, j | 0 <= i < j < |e| ensures e[i] < e[j] {
      assert e[j] == events[j + 1];
      if i > 0 {
        assert e[i] == events[i + 1];
      }
    }
  }

  /** The value at one dump after the first segment is dropped. */
  lemma DropFirstValueAt(values: seq<string>, events: seq<int>, indices: seq<int>, d: nat)
    requires WellFormed(values, events, indices) && |indices| >= 2
    requires WellFormed(values, DropFirst(events, indices).0, DropFirst(events, indices).1)
    ensures ValueAt(values, DropFirst(events, indices).0, DropFirst(events, indices).1, d)
            == if d < events[1] then ValueAt(values, events, indices, events[1]) else ValueAt(values, events, indices, d)
  {
    if d < events[1] {
      DropFirstValueEarly(values, events, indices, d);
    } else {
      DropFirstValueLate(values, events, indices, d);
    }
  }

  /** A dump of the dropped segment takes the value of the segment after it. */
  lemma DropFirstValueEarly(values: seq<string>, events: seq<int>, indices: seq<int>, d: nat)
    requires WellFormed(values, events, indices) && |indices| >= 2 && d < events[1]
    requires WellFormed(values, DropFirst(events, indices).0, DropFirst(events, indices).1)
    ensures ValueAt(values, DropFirst(events, indices).0, DropFirst(events, indices).1, d)
            == values[indices[1]]
    ensures ValueAt(values, events, indices, events[1]) == values[indices[1]]
  {
    var e := DropFirst(events, indices).0;
    var n := |indices|;
    SegmentAtUnique(events, n, events[1], 1);
    if n > 2 {
      assert e[1] == events[2];
    }
    SegmentAtUnique(e, n - 1, d, 0);
  }

  /** A dump after the dropped segment keeps its value. */
  lemma DropFirstValueLate(values: seq<string>, events: seq<int>, indices: seq<int>, d: nat)
    requires WellFormed(values, events, indices) && |indices| >= 2 && d >= events[1]
    requires WellFormed(values, DropFirst(events, indices).0, DropFirst(events, indices).1)
    ensures ValueAt(values, DropFirst(events, indices).0, DropFirst(events, indices).1, d)
            == ValueAt(values, events, indices, d)
  {
    var e := DropFirst(events, indices).0;
    var n := |indices|;
    var k := SegmentAt(events, n, d);
    assert k >= 1;
    if k < n - 1 {
      assert e[k] == events[k + 1];
    }
    if k >= 2 {
      assert e[k - 1] == events[k];
    }
    SegmentAtUnique(e, n - 1, d, k - 1);
  }

  /** Dropping the first segment keeps the timeline well formed, removes one
      segment, leaves every later segment in order, and gives the dumps of
      the dropped segment the value of the segment that followed it. */
  lemma DropFirstMeaning(values: seq<string>, events: seq<int>, indices: seq<int>)
    requires WellFormed(values, events, indices) && |indices| >= 2
    ensures WellFormed(values, DropFirst(events, indices).0, DropFirst(events, indices).1)
    ensures |DropFirst(events, indices).1| == |indices| - 1
    ensures forall d: nat ::
      ValueAt(values, DropFirst(events, indices).0, DropFirst(events, indices).1, d)
      == if d < events[1] then ValueAt(values, events, indices, events[1]) else ValueAt(values, events, indices, d)
  {
    DropFirstWellFormed(values, events, indices);
    forall d: nat
      ensures ValueAt(values, DropFirst(events, indices).0, DropFirst(events, indices).1, d)
              == if d < events[1] then ValueAt(values, events, indices, events[1]) else ValueAt(values, events, indices, d)
    {
      DropFirstValueAt(values, events, indices, d);
    }
  }

  /** A categorical timeline whose `events` and `indices` the driver
      replaces in place. */
  class CategoricalData {
    var uniqueValues: seq<string>
    var events: seq<int>
    var indices: seq<int>

    ghost predicate Valid()
      reads this
    {
      WellFormed(uniqueValues, events, indices)
    }

    /** Number of segments (`len()`). */
    function Length(): nat
      reads this
    {
      |indices|
    }

    /** Value at dump `dump` (indexing by an integer). */
    function Value(dump: nat): string
      reads this
      requires Valid()
    {
      ValueAt(uniqueValues, events, indices, dump)
    }

    constructor (values: seq<string>, events: seq<int>, indices: seq<int>)
      requires WellFormed(values, events, indices)
      ensures Valid()
      ensures this.uniqueValues == values && this.events == events && this.indices == indices
    {
      this.uniqueValues := values;
      this.events := events;
      this.indices := indices;
    }

    /** Removes the first segment and stretches the second back to dump 0. */
    method DropLeadingSegment()
      requires Valid() && Length() > 1
      modifies this
      ensures Valid()
      ensures (events, indices) == DropFirst(old(events), old(indices))
      ensures uniqueValues == old(uniqueValues)
      ensures Length() == old(Length()) - 1
      ensures forall d: nat :: Value(d) == if d < old(events[1]) then old(Value(events[1])) else old(Value(d))
    {
      ghost var e0, x0 := events, indices;
      events, indices := events[1..], indices[1..];
      events := events[0 := 0];
      assert events == [0] + e0[2..];
      DropFirstMeaning(uniqueValues, e0, x0);
    }

    /** If the antenna starts slewing on the second dump, the first dump joins
        that slew instead of forming a scan of its own. */
    method AbsorbInitialDumpIntoSlew()
      requires Valid()
      modifies this
      ensures Valid() && uniqueValues == old(uniqueValues)
      ensures old(Length() > 1 && events[1] == 1 && Value(1) == "slew") ==>
        (events, indices) == DropFirst(old(events), old(indices)) && Value(0) == "slew"
      ensures !old(Length() > 1 && events[1] == 1 && Value(1) == "slew") ==>
        events == old(events) && indices == old(indices)
    {
      if Length() > 1 && events[1] == 1 && Value(1) == "slew" {
        DropLeadingSegment();
      }
    }

    /** An initial blank target (the antenna stopped at the start) is removed
        and the next target takes over from dump 0. */
    method RemoveInitialBlankTarget()
      requires Valid()
      modifies this
      ensures Valid() && uniqueValues == old(uniqueValues)
      ensures old(Length() > 1 && Value(0) == "Nothing, special") ==>
        (events, indices) == DropFirst(old(events), old(indices)) && Value(0) == old(Value(events[1]))
      ensures !old(Length() > 1 && Value(0) == "Nothing, special") ==>
        events == old(events) && indices == old(indices)
    {
      if Length() > 1 && Value(0) == "Nothing, special" {
        DropLeadingSegment();
      }
    }
  }
}
