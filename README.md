# katdal version-3 driver bookkeeping and the AVN augmentation script, in Dafny

This project models the bookkeeping that katdal's version-3 HDF5 format
driver (`katdal/h5datav3.py`) does around its categorical timelines, sensor
cache and lazy indexer. It also models the position-log splicing done by
`scripts/avn_augment.py`. Properties of both are proved.

From the driver:

- **Timestamp repair** (`timestamps.dfy`, module `TimestampRepair`):
  - The ADC wrap period, 2^48 samples divided by the timestamp scale.
  - The second opinion of the start time, taken from a periodic sensor.
  - Moving the sync time forward in whole wrap periods.
  - Resynthesising the timestamps.
  - Correcting a counter wrap inside the observation, with numpy's truth value of the wrap-index array.
  - Discarding a duplicated final dump.
- **Sensor naming and activity states** (`sensor_names.dfy`, `SensorNames`):
  - Regrouping HDF5 dataset paths into sensor-cache keys.
  - The sensor cache those keys build.
  - The simplification of antenna activities to the basic states slew, scan, track and stop.
- **Antennas and correlation products** (`corrprods.dfy`, `CorrProducts`):
  - The observed antennas and the reference antenna.
  - The left rotation that undoes an early correlator labelling bug.
  - The filter that keeps only products between observed antennas.
- **Categorical-timeline surgery** (`timeline.dfy`, `Timeline`):
  - A `CategoricalData` class whose `events` and `indices` the driver replaces in place.
  - Dropping a leading segment when the first dump precedes a slew.
  - Dropping a leading segment when the first target is blank.
- **Vis-like lazy indexers**:
  - In `vis_indexer.dfy` (`VisIndexer`):
    - The force-3dim final index.
    - The stage-1 time mask, padded when a duplicate final dump was discarded.
    - The transform list.
  - In `vis_selectors.dfy` (`VisSelectors`):
    - Weight names turned into column indices and multiplied together.
    - Flag names turned into an MSB-first 8-bit mask, applied as `flags & mask != 0`.

From the script (`avn_augment.dfy`, `AvnAugment`):

- The check that the log covers the RF recording.
- The two while-loops that bracket the recording in the sorted CSV timestamp column.
- The loop that turns the bracketed rows into six position record lists.
- The datasets those lists are written to.
- The static environment series, one record per 10 s.

Shared helpers:

- `wrappers.dfy`: `Option` and `Result`.
- `text.dfy`: Python's `split`, `split(sep, 1)`, `endswith` and `s[:-1]`.

Timestamps are `real` seconds. The log's timestamps are `real` milliseconds.

The driver builds timelines with a closing event after the last segment
(`CategoricalData(..., [0, num_dumps])`, katdal/h5datav3.py:313). A timeline
in the model has `|indices|` segments, and `events` has either `|indices|` or
`|indices| + 1` entries, so timelines with and without that closing event
are both covered.

## Model

| member | source | states |
|---|---|---|
| `Text.SplitOnce` | katdal/h5datav3.py:156 | none exactly when the separator is absent; otherwise the text is the head, the separator and the tail, with no separator in the head |
| `Text.SplitAtFirst` | katdal/h5datav3.py:156 | splitting `a + sep + b` once, with no separator in `a`, gives back exactly `(a, b)` |
| `Text.Split` | katdal/h5datav3.py:286 | at least one part, no part contains the separator, and joining the parts with it gives back the text |
| `Text.SplitJoin` | katdal/h5datav3.py:286 | splitting a join of separator-free parts gives back the parts |
| `Text.DropLast` | katdal/h5datav3.py:304 | the label is the result followed by its last character; empty stays empty |
| `TimestampRepair.AdcWrapPeriod` | katdal/h5datav3.py:186 | the period times the scale is 2^48 samples; the period is positive exactly when the scale is |
| `TimestampRepair.SensorStartTime` | katdal/h5datav3.py:187-199 | the search stops at the first periodic sensor that is empty or lasts within 10 s of the data: an IndexError when it is empty, its first timestamp otherwise; 0.0 when no sensor stops it |
| `TimestampRepair.AdvanceSyncTime` | katdal/h5datav3.py:200-202 | the origin moves by a whole number of periods; afterwards the sensor start is at most one period after it; one period fewer would not do; no step is taken exactly when the gap is already at most a period |
| `TimestampRepair.Resynthesise` | katdal/h5datav3.py:208-210 | one resynthesised timestamp per timestamp |
| `TimestampRepair.ResynthesiseSameScale` | katdal/h5datav3.py:179-184 | with the scale kept, every timestamp shifts by exactly the change of origin; with the origin kept too, the timestamps are identical |
| `TimestampRepair.Diff` | katdal/h5datav3.py:212 | one step fewer than timestamps, each the difference of neighbours |
| `TimestampRepair.NegativeSteps` | katdal/h5datav3.py:214 | exactly the positions of the negative steps, strictly increasing |
| `TimestampRepair.ArrayTruth` | katdal/h5datav3.py:215 | numpy truth of an index array: an error exactly when it holds several elements; true exactly for one non-zero element |
| `TimestampRepair.CumulativeSum` | katdal/h5datav3.py:217 | one element more than the steps, starting at the first value |
| `TimestampRepair.CumulativeSumStep` | katdal/h5datav3.py:217 | each element of the running sum is the previous one plus its step |
| `TimestampRepair.CumulativeSumOfDiff` | katdal/h5datav3.py:212-217 | summing a series' steps from its first element gives back the series |
| `TimestampRepair.AddWrapPeriod` | katdal/h5datav3.py:216 | in place, exactly the steps at the wrap positions gain one wrap period and the rest are unchanged |
| `TimestampRepair.CumSum` | katdal/h5datav3.py:217 | the running total equals the cumulative sum |
| `TimestampRepair.CorrectedSteps` | katdal/h5datav3.py:216-217 | summing up steps that gained one period where they were negative gives a series whose every step is the original step plus one period exactly where it was negative |
| `TimestampRepair.RemoveTimeWraps` | katdal/h5datav3.py:211-217 | an error exactly when there are several negative steps; untouched when the wrap array is falsy; otherwise same length and first element, and every step equals the original step plus one period exactly where it was negative |
| `TimestampRepair.MonotoneSeriesUntouched` | katdal/h5datav3.py:213-215 | a non-decreasing series has no wrap positions and is never corrected |
| `TimestampRepair.NoNegativeSteps` | katdal/h5datav3.py:214 | steps that never decrease leave no wrap positions |
| `TimestampRepair.DiscardDuplicateFinalDump` | katdal/h5datav3.py:222-229 | BrokenFile exactly when the count differs from the vis dumps; otherwise a prefix one shorter exactly when there are at least two dumps and the last two are equal, else the whole series |
| `TimestampRepair.OnlyOneDuplicateDiscarded` | katdal/h5datav3.py:227-229 | a triplicated final timestamp loses only one copy |
| `SensorNames.SensorKey` | katdal/h5datav3.py:155-162 | an unpack error exactly when the dataset path has no '/' |
| `SensorNames.SensorKeyOfPath` | katdal/h5datav3.py:156-162 | the key is the component's group, '/', and the sensor part; an unclassed component keeps the path; an antenna positioner gets `Antennas/` in front |
| `SensorNames.KeyOf` | katdal/h5datav3.py:155-162 | an object gets a cache key exactly when it is a sensor dataset whose path contains '/' |
| `SensorNames.RegisterStep` | katdal/h5datav3.py:163 | assigning the next sensor's key keeps the cache exact, with that key now mapping to the new sensor and every other key unchanged |
| `SensorNames.SkipStep` | katdal/h5datav3.py:155 | an object that is not a sensor leaves the cache exact |
| `SensorNames.CacheFromExact` | katdal/h5datav3.py:152-164 | assigning the keys in visiting order leaves exactly the keys that occurred, each mapped to the last position that produced it |
| `SensorNames.RegisterSensors` | katdal/h5datav3.py:152-164 | fails exactly when some sensor path has no '/'; otherwise the cache holds exactly the keys of the sensor datasets, each mapped to the last dataset visited with that key |
| `SensorNames.SimplifyState` | katdal/h5datav3.py:18 | always a basic state; basic states are fixed points; 'stop' exactly for activities outside the table; 'scan' exactly for scan and scan_complete; 'slew' exactly for slew and scan_ready |
| `SensorNames.ActivityPropsAreStates` | katdal/h5datav3.py:22-23 | the greedy values and the initial value of the activity policy are basic states left unchanged by the transform |
| `CorrProducts.ObservedAntennas` | katdal/h5datav3.py:285-286 | a non-empty `ants` parameter yields comma-free names that join back to it; otherwise all antennas |
| `CorrProducts.ReferenceAntenna` | katdal/h5datav3.py:287 | the requested antenna if given; otherwise the first observed antenna, an IndexError exactly when none is observed |
| `CorrProducts.RotateLeft` | katdal/h5datav3.py:299-300 | an IndexError exactly for an empty list; otherwise a permutation in which each product moves one place forward and the first goes last |
| `CorrProducts.KeepObserved` | katdal/h5datav3.py:304 | a product is kept exactly when it was present and both its antennas are observed; the list never grows |
| `CorrProducts.KeepObservedAppend` | katdal/h5datav3.py:304 | filtering distributes over concatenation, so order and repeats are kept |
| `CorrProducts.KeepObservedIdempotent` | katdal/h5datav3.py:304 | filtering twice equals filtering once |
| `CorrProducts.RotationKeepsObservedCount` | katdal/h5datav3.py:299-305 | rotation does not change how many products survive the filter |
| `CorrProducts.ResolveCorrProds` | katdal/h5datav3.py:297-308 | an IndexError when rotating nothing; otherwise BrokenFile exactly when neither the list nor its filtered form matches the data; labels that match the data are used as they are, rotated left when asked; otherwise the result is exactly the observed products of the (rotated) labels, in order, and has the data's length |
| `Timeline.SegmentAt` | katdal/h5datav3.py:346 | the covering segment starts at or before the dump and every later segment starts after it |
| `Timeline.DropFirstWellFormed` | katdal/h5datav3.py:347-348 | dropping the first segment keeps events strictly increasing from 0 and indices in range |
| `Timeline.DropFirstValueAt` | katdal/h5datav3.py:347-348 | after the drop, dumps before the old second event take the second segment's value, and later dumps keep theirs |
| `Timeline.DropFirstValueEarly` | katdal/h5datav3.py:347-348 | a dump of the dropped segment takes the second segment's value, which is the old value at the second segment's start |
| `Timeline.DropFirstValueLate` | katdal/h5datav3.py:347-348 | a dump at or after the second segment's start keeps its value |
| `Timeline.DropFirstMeaning` | katdal/h5datav3.py:347-348 | the drop is well formed, removes exactly one segment, and changes values only on the dropped segment's dumps |
| `Timeline.CategoricalData.DropLeadingSegment` | katdal/h5datav3.py:347-348 | in place: events become 0 followed by the old events from the third on, and indices lose their first; the timeline stays valid, is one shorter, and keeps every value after the dropped segment |
| `Timeline.CategoricalData.AbsorbInitialDumpIntoSlew` | katdal/h5datav3.py:345-348 | drops the first segment exactly when there are several segments, the second starts at dump 1 and slews, after which dump 0 slews; otherwise events and indices are unchanged |
| `Timeline.CategoricalData.RemoveInitialBlankTarget` | katdal/h5datav3.py:370-373 | drops the first segment exactly when there are several and dump 0's target is 'Nothing, special', after which dump 0 has the next target; otherwise unchanged |
| `VisIndexer.PadToThree` | katdal/h5datav3.py:507 | exactly three entries: the user's entries where given, full slices after them |
| `VisIndexer.Singles` | katdal/h5datav3.py:509-510 | one entry per index entry, a new axis exactly at the integer entries |
| `VisIndexer.ForceThreeDim` | katdal/h5datav3.py:504-511 | exactly three entries; entry i is a new axis exactly when the user's index has an integer at i |
| `VisIndexer.SinglesRestoreAxes` | katdal/h5datav3.py:509-511 | indexing with the singles after the index keeps one axis per entry: a singleton for each integer, the selected length otherwise |
| `VisIndexer.ForceThreeDimKeepsThreeAxes` | katdal/h5datav3.py:504-511 | any user index on (time, frequency, baseline) data yields exactly three axes: singletons at integer entries, the selection's length at other entries, the full length for absent entries |
| `VisIndexer.Stage1TimeKeep` | katdal/h5datav3.py:498-502 | when the dataset has one dump more than the mask, the mask is extended by an unselected final dump; otherwise unchanged; either way the same dumps are selected |
| `VisIndexer.VisLikeIndexer` | katdal/h5datav3.py:475-514 | the stage-1 time mask as above, the frequency and product masks as given, and the extractor alone when squeezing, else followed by the force-3dim transform |
| `VisIndexer.Weights` | katdal/h5datav3.py:557-576 | the extractor multiplies the selected weight columns of the resolved names (all weights by default); the time mask gains a False final dump exactly when it is one dump short; the frequency and product masks pass through; the transforms are the extractor, then the three-axis restore unless squeezing |
| `VisIndexer.Flags` | katdal/h5datav3.py:597-617 | fails exactly when the flag mask of the resolved names (all flags by default) fails; otherwise the extractor tests against that mask, the time mask gains a False final dump exactly when it is one dump short, the frequency and product masks pass through, and the three-axis restore follows unless squeezing |
| `VisSelectors.ResolveNames` | katdal/h5datav3.py:557 | defaults when no names are given, the list as given, or comma-free parts that join back to the comma-separated string |
| `VisSelectors.FirstIndex` | katdal/h5datav3.py:564 | none exactly for an unknown name; otherwise a position holding the name with no earlier occurrence |
| `VisSelectors.SelectedIndices` | katdal/h5datav3.py:560-566 | at most one index per name, each a position of a named known weight |
| `VisSelectors.SelectedIndicesAppend` | katdal/h5datav3.py:562-566 | the selection of a concatenation is the concatenation of selections, so order and duplicates are kept |
| `VisSelectors.SelectedIndicesSkipUnknown` | katdal/h5datav3.py:565-566 | an unknown name anywhere contributes nothing |
| `VisSelectors.SelectedIndicesOfKnown` | katdal/h5datav3.py:562-564 | when every name is known, there is one index per name, namely that name's first position |
| `VisSelectors.WeightSelection` | katdal/h5datav3.py:559-566 | the loop builds exactly the specified selection |
| `VisSelectors.ProductAppend` | katdal/h5datav3.py:574 | the product over a concatenated selection is the product of the parts' products |
| `VisSelectors.ExtractWeight` | katdal/h5datav3.py:572-575 | an IndexError exactly when a selected column is missing; otherwise the product of the selected columns, which for one column is that column and for none is 1 |
| `VisSelectors.DropLastAxis` | katdal/h5datav3.py:575 | the shape without its last axis |
| `VisSelectors.DefaultWeightSelection` | katdal/h5datav3.py:47 | by default the single 'precision' column 0 is selected |
| `VisSelectors.PackBitsBit` | katdal/h5datav3.py:608 | bit 2^(7-i) of the packed byte is set exactly when marker i is non-zero |
| `VisSelectors.ZeroIffNoBit` | katdal/h5datav3.py:609 | a byte is zero exactly when none of its eight bits is set |
| `VisSelectors.MarksStep` | katdal/h5datav3.py:602-604 | the markers after one more name are the earlier markers plus that name's flag |
| `VisSelectors.FlagMask` | katdal/h5datav3.py:599-608 | the loop over names and the packing give exactly the specified flag mask |
| `VisSelectors.FlagMaskBits` | katdal/h5datav3.py:597-608 | an IndexError exactly when a named known flag lies beyond position 7; otherwise bit 2^(7-i) is set exactly when some name is known flag i |
| `VisSelectors.FlagMaskZero` | katdal/h5datav3.py:609-610 | the mask is zero exactly when no name is a known flag |
| `VisSelectors.FlagMaskRepeat` | katdal/h5datav3.py:602-604 | naming a flag again leaves the mask unchanged |
| `VisSelectors.FlagMaskSkipsUnknown` | katdal/h5datav3.py:605-606 | an unknown name leaves the mask unchanged |
| `VisSelectors.ExtractFlagMeaning` | katdal/h5datav3.py:612-615 | a visibility is flagged exactly when a flag type in the mask is raised in its flag byte; an empty mask flags nothing |
| `AvnAugment.FirstNotBefore` | scripts/avn_augment.py:210-212 | over the log's millisecond timestamp column: every earlier row is before the recording, and the row found (if any) is not |
| `AvnAugment.LastNotAfter` | scripts/avn_augment.py:222-224 | every later row is after the recording, and the row found (if any) is not |
| `AvnAugment.FirstNotBeforeIsFirst` | scripts/avn_augment.py:211 | the row that ends the forward scan is unique |
| `AvnAugment.LastNotAfterIsLast` | scripts/avn_augment.py:223 | the row that ends the backward scan is unique |
| `AvnAugment.LowerIndex` | scripts/avn_augment.py:209-214 | none when every row is before the recording; otherwise one less than the first row that is not |
| `AvnAugment.UpperIndex` | scripts/avn_augment.py:221-226 | none when every row is after the recording; otherwise one more than the last row that is not |
| `AvnAugment.FindWindow` | scripts/avn_augment.py:191-228 | the coverage check and both loops produce exactly the specified outcome: abort, crash on a missing row label, or the bracketing rows |
| `AvnAugment.WindowSearchAborts` | scripts/avn_augment.py:197-200 | the script exits exactly when the log is non-empty and starts after the recording or ends before it (CSV ms divided by 1000) |
| `AvnAugment.WindowBrackets` | scripts/avn_augment.py:209-228 | row `lower` is before the start and the next row is not; row `upper` is after the end and the row before it is not |
| `AvnAugment.ExactBoundaryCrashes` | scripts/avn_augment.py:214-228 | a covering log whose first row is exactly at the start, or whose last row is exactly at the end, still kills the script (row label -1 or n) |
| `AvnAugment.SortedLogFindsWindow` | scripts/avn_augment.py:209-228 | a time-ordered log strictly enclosing the recording yields a window whose inner rows all lie within it |
| `AvnAugment.SliceLength` | scripts/avn_augment.py:235 | the slice stays inside the log; it has `upper - lower` rows when the bounds are ordered and in range, none when they are reversed |
| `AvnAugment.PositionListsOf` | scripts/avn_augment.py:250-256 | every list has exactly as many records as the slice has rows |
| `AvnAugment.PositionListsContents` | scripts/avn_augment.py:250-256 | record i of each list holds row lower+i's raw millisecond timestamp, its value in that list's column, and 'nominal' |
| `AvnAugment.ColumnRecordsStep` | scripts/avn_augment.py:251 | one more row appends exactly that row's record |
| `AvnAugment.BuildPositionLists` | scripts/avn_augment.py:250-256 | the loop builds exactly the specified lists |
| `AvnAugment.WrittenDatasetsHoldRequests` | scripts/avn_augment.py:258-306 | every written dataset holds the requested positions of its own axis |
| `AvnAugment.WrittenDesiredAzimuthIsWrong` | scripts/avn_augment.py:268 | a row whose desired azimuth differs from the requested one has the requested value in the desired-azimuth dataset |
| `AvnAugment.IntendedDatasetsHoldTheirColumns` | scripts/avn_augment.py:252-256 | with each dataset written from its own list, every dataset holds its own column's records |
| `AvnAugment.CopiedRowsEndWithinRecording` | scripts/avn_augment.py:226-235 | the copied rows run from `lower` to `upper - 1`; the first lies before the start and the last is at or before the end |
| `AvnAugment.CopiedRowsMissRecordingEnd` | scripts/avn_augment.py:222-235 | rows every second from 0 s to 3 s and a recording from 0.5 s to 2.5 s: the window is rows 0 to 3, and the copied rows end at 2 s |
| `AvnAugment.BracketingLength` | scripts/avn_augment.py:226 | the intended slice stays inside the log and has `upper + 1 - lower` rows |
| `AvnAugment.BracketingRowsCoverRecording` | scripts/avn_augment.py:226-235 | rows `lower` to `upper` inclusive start before the recording and end after it |
| `AvnAugment.AugmentPositions` | scripts/avn_augment.py:191-302 | aborts or crashes exactly as the search does; otherwise writes the datasets built from the window's rows |
| `AvnAugment.AugmentPositionsIntended` | scripts/avn_augment.py:191-302 | the same outcomes, but every dataset holds its own column's records for rows `lower` to `upper` inclusive |
| `AvnAugment.EnviroTimes` | scripts/avn_augment.py:84 | times start at the beginning and step by 10 s, all before the end, and the next step would reach the end |
| `AvnAugment.ChosenReadings` | scripts/avn_augment.py:93-106 | the defaults (30 degC, 1010 mbar, 80 percent, no wind) when the answer starts with 'y'; the entered readings otherwise |
| `AvnAugment.BuildEnviroLists` | scripts/avn_augment.py:108-113 | each of the five lists holds one nominal record of its reading per sample time |
| `AvnAugment.EnviroSeriesMeaning` | scripts/avn_augment.py:84-113 | record k of each series is at begin + 10k s, before the end, with the constant reading and 'nominal'; the series reaches the end |

## Left out

- HDF5 access is storage I/O, so it is not modelled. This covers opening files, `visititems`, dummy datasets, attribute reads, and dataset creation and deletion in the script. Datasets appear as sequences and attributes as parameters; for example, the `class` attributes are a map from component to class.
- The internals of CategoricalData, SensorCache and LazyIndexer (`align`, `add`, `add_unmatched`, `remove`, sensor extraction, and reading data through a lazy indexer) are not part of this model. Only the `events`/`indices` the driver touches, value lookup by dump, and the indexer's setup are modelled.
- katpoint (antenna objects, targets, timestamps, `deg2rad`) and `_robust_target` are foreign code and are not modelled.
- The sensor aliases and the virtual (az, el) sensors (katdal/h5datav3.py:29-41) only configure the sensor cache, whose internals are not part of this model, so they are not modelled.
- Safe evaluation of observation parameters is not modelled. The `ants` parameter is given as an optional string.
- The complex64 view of visibilities is only named, as the `ExtractVis` extractor.
- Floating-point rounding is not modelled; timestamps, weights and durations are exact reals. This covers the irregular-dump check and the midpoint shift (katdal/h5datav3.py:230-244), the float32 weight product, and the duration strings the script prints.
- Logging, warnings and printing are not modelled. This includes the `if not selection` and `if not flagmask` warnings, which have no other effect.
- The interactive prompt loop of the script (scripts/avn_augment.py:64-73) is not modelled. Its answer and any entered readings are parameters.
- pandas CSV parsing and the `ValueError` handlers for non-numeric log lines are not modelled. Every log cell is taken to be a number.
- The activity and label datasets seeded from row `lower` (scripts/avn_augment.py:311-320) are dataset creation only and are not modelled.
- The channel-count check and the other driver steps outside the listed lines are not modelled. setup.py is packaging metadata and is not part of this model.
- TimestampRepair.SensorStartTime: the cache's iteration order (a Python 2 dict) is not known, so the sensors are a sequence in an arbitrary given order.
- SensorNames.RegisterSensors: the visiting order of `visititems` is likewise a given sequence.
- TimestampRepair.AdvanceSyncTime: requires a positive wrap period whenever a step is needed. With a non-positive period and a gap larger than the period, the source loops forever, which the model does not represent.
- TimestampRepair.AdcWrapPeriod: requires a non-zero scale, and so does `TimestampRepair.Resynthesise`. A zero scale factor is not modelled. The source does not guard against it: a zero Python float given as the time scale makes the division at katdal/h5datav3.py:186 raise ZeroDivisionError, and a zero numpy scale read from the file gives an infinite period at line 186 and infinite or NaN timestamps at line 210. Exact reals have no infinity or NaN, and which of these happens depends on the number type.
- TimestampRepair.Resynthesise: its own contract gives only the length. The arithmetic is stated about it only for an unchanged scale (`ResynthesiseSameScale`).
- VisIndexer.ForceThreeDimKeepsThreeAxes: states shapes, not element values. Several list or mask entries are not broadcast together as numpy's advanced indexing would; each keeps its axis. An index with more than three entries is cut to three, although indexing the data with it is the lazy indexer's business.
- Timeline.SegmentAt: the lookup by dump is the categorical indexing of the timeline class, which is not part of this model. It is taken as "the last segment starting at or before the dump".

## Findings

| source | as written | input that shows it | evidently intended | confidence | as-written member | corrected member |
|---|---|---|---|---|---|---|
| scripts/avn_augment.py:268 | the desired and actual azimuth and elevation datasets are all written from the requested-position lists (lines 268, 277, 293, 302), although their own lists are built at lines 252-256 | one log row with requested azimuth 10.0 and desired azimuth 11.0: the desired-azimuth dataset holds 10.0 | each dataset written from the list of the column it is named after | high; not executed | `AvnAugment.WrittenDesiredAzimuthIsWrong` | `AvnAugment.IntendedDatasetsHoldTheirColumns` |
| scripts/avn_augment.py:226 | `csv_upper_index` is set to the first row after the recording ("just after the RF data ends"), but the slice `[csv_lower_index:csv_upper_index]` excludes that row, so the copied rows end at or before the recording's end while they start before its beginning | log rows at 0, 1, 2 and 3 s and a recording from 0.5 s to 2.5 s: rows 0 to 2 are copied, ending at 2 s | copy rows `lower` to `upper` inclusive, so that both ends of the recording are bracketed | medium; not executed | `AvnAugment.CopiedRowsMissRecordingEnd` | `AvnAugment.BracketingRowsCoverRecording` |
