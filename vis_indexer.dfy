/**
 * How the version-3 driver sets up the lazy indexer of a vis-like dataset
 * (visibilities, weights, flags), all of shape (time, frequency, baseline):
 * the first-stage selection, padded in time when the file holds a duplicate
 * final dump, and the transform list, whose optional last transform keeps
 * every axis of the user's second-stage index so that the result always has
 * three axes.
 */
module VisIndexer {
  import opened Wrappers
  import VisSelectors

  /** One entry of the user's second-stage index: an integer picks one
      element and removes the axis, a full slice keeps the axis whole, any
      other slice, index list or mask keeps the axis with `length` elements. */
  datatype KeepEntry = ScalarIndex(index: int) | FullSlice | Subset(length: nat)

  /** One entry of the final index: insert a singleton axis, or take the next
      axis whole. */
  datatype AxisIndex = NewAxis | WholeAxis

  /** The index cut or padded with full slices to exactly three entries. */
  function PadToThree(keep: seq<KeepEntry>): (k: seq<KeepEntry>)
    ensures |k| == 3
    ensures forall i :: 0 <= i < 3 ==> k[i] == if i < |keep| then keep[i] else FullSlice
  {
    if |keep| >= 3 then keep[..3] else keep + seq(3 - |keep|, _ => FullSlice)
  }

  /** A new axis for every integer entry, the whole axis for every other. */
  function Singles(k: seq<KeepEntry>): (r: seq<AxisIndex>)
    ensures |r| == |k|
    ensures forall i :: 0 <= i < |k| ==> (r[i] == NewAxis <==> k[i].ScalarIndex?)
  {
    if |k| == 0 then [] else [if k[0].ScalarIndex? then NewAxis else WholeAxis] + Singles(k[1..])
  }

  /** The final index of the force-3dim transform: exactly three entries, a
      new axis exactly where the user's index holds an integer. */
  function ForceThreeDim(keep: seq<KeepEntry>): (r: seq<AxisIndex>)
    ensures |r| == 3
    ensures forall i :: 0 <= i < 3 ==> (r[i] == NewAxis <==> i < |keep| && keep[i].ScalarIndex?)
  {
    Singles(PadToThree(keep))
  }

  /** Shape of an array of shape `shape` indexed by `k` (one entry per axis). */
  function IndexedShape(shape: seq<nat>, k: seq<KeepEntry>): seq<nat>
    requires |shape| == |k|
  {
    if |k| == 0 then []
    else
      match k[0]
      case ScalarIndex(_) => IndexedShape(shape[1..], k[1..])
      case FullSlice => [shape[0]] + IndexedShape(shape[1..], k[1..])
      case Subset(n) => [n] + IndexedShape(shape[1..], k[1..])
  }

  /** Shape of an array of shape `shape` indexed by `axes`: a new axis inserts
      a singleton, a whole axis takes the next axis of the array, and the
      remaining axes follow; None (an index error) when the array runs out of
      axes. */
  function ApplyAxes(shape: seq<nat>, axes: seq<AxisIndex>): Option<seq<nat>>
  {
    if |axes| == 0 then Some(shape)
    else if axes[0] == NewAxis then
      match ApplyAxes(shape, axes[1..])
      case None => None
      case Some(s) => Some([1] + s)
    else if |shape| == 0 then None
    else
      match ApplyAxes(shape[1..], axes[1..])
      case None => None
      case Some(s) => Some([shape[0]] + s)
  }

  /** Length of axis `i` once indexed by `entry`, the axis being kept. */
  function KeptLength(shape: seq<nat>, entry: KeepEntry, i: nat): nat
    requires i < |shape|
  {
    match entry
    case ScalarIndex(_) => 1
    case FullSlice => shape[i]
    case Subset(n) => n
  }

  /** Indexing with the singles of `k` after `k` itself restores every axis
      that `k` removed, as a singleton, and leaves every other axis as `k`
      made it. */
  lemma {:induction false} SinglesRestoreAxes(shape: seq<nat>, k: seq<KeepEntry>)
    requires |shape| == |k|
    ensures var s := ApplyAxes(IndexedShape(shape, k), Singles(k));
      s.Some? && |s.value| == |k| && forall i :: 0 <= i < |k| ==> s.value[i] == KeptLength(shape, k[i], i)
  {
    if |k| > 0 {
      var inner := IndexedShape(shape[1..], k[1..]);
      SinglesRestoreAxes(shape[1..], k[1..]);
      var tail := ApplyAxes(inner, Singles(k[1..])).value;
      assert Singles(k)[1..] == Singles(k[1..]);
      var head := KeptLength(shape, k[0], 0);
      if k[0].ScalarIndex? {
        assert IndexedShape(shape, k) == inner;
      } else {
        var outer := IndexedShape(shape, k);
        assert outer == [head] + inner;
        assert outer[1..] == inner;
      }
      assert ApplyAxes(IndexedShape(shape, k), Singles(k)) == Some([head] + tail);
      forall i | 1 <= i < |k|
        ensures KeptLength(shape, k[i], i) == KeptLength(shape[1..], k[1..][i - 1], i - 1)
      {
      }
    }
  }

  /** With the force-3dim transform in place, indexing (time, frequency,
      baseline) data with any user index yields three axes: a singleton where
      the index holds an integer, the selected length where it holds another
      selection, the full length where it holds nothing. */
  lemma ForceThreeDimKeepsThreeAxes(shape: seq<nat>, keep: seq<KeepEntry>)
    requires |shape| == 3
    ensures var s := ApplyAxes(IndexedShape(shape, PadToThree(keep)), ForceThreeDim(keep));
      && s.Some? && |s.value| == 3
      && (forall i :: 0 <= i < 3 && i < |keep| ==> s.value[i] == KeptLength(shape, keep[i], i))
      && (forall i :: |keep| <= i < 3 ==> s.value[i] == shape[i])
  {
    SinglesRestoreAxes(shape, PadToThree(keep));
  }

  /** The first-stage time mask: the driver's time selection, extended with
      an unselected final dump when the dataset holds one dump more than the
      selection (the duplicate final dump that was discarded). */
  method Stage1TimeKeep(timeKeep: seq<bool>, datasetDumps: nat) returns (mask: seq<bool>)
    ensures |timeKeep| == datasetDumps - 1 ==>
      |mask| == datasetDumps && mask[..|timeKeep|] == timeKeep && !mask[datasetDumps - 1]
    ensures |timeKeep| != datasetDumps - 1 ==> mask == timeKeep
    ensures forall i :: 0 <= i < |mask| && mask[i] ==> i < |timeKeep| && timeKeep[i]
    ensures forall i :: 0 <= i < |timeKeep| && timeKeep[i] ==> i < |mask| && mask[i]
  {
    if |timeKeep| == datasetDumps - 1 {
      var padded := new bool[datasetDumps](_ => false);
      for i := 0 to |timeKeep|
        invariant padded[..i] == timeKeep[..i]
        invariant forall j :: i <= j < datasetDumps ==> !padded[j]
      {
        padded[i] := timeKeep[i];
      }
      assert padded[..|timeKeep|] == timeKeep;
      mask := padded[..];
      assert mask[..|timeKeep|] == padded[..|timeKeep|];
    } else {
      mask := timeKeep;
    }
  }

  /** The transform that turns raw dataset values into the accessor's values. */
  datatype Extractor =
    | ExtractVis                              // complex view of the (real, imaginary) pairs
    | ExtractWeights(selection: seq<nat>)     // product of the selected weight columns: VisSelectors.ExtractWeight
    | ExtractFlags(mask: bv8)                 // bitwise test against the flag mask: VisSelectors.ExtractFlag

  datatype Transform = Extract(extractor: Extractor) | KeepThreeAxes

  /** What the lazy indexer is given: the first-stage selection along each
      axis and the transforms applied after the second-stage index. */
  datatype IndexerSetup = IndexerSetup(
    timeKeep: seq<bool>, freqKeep: seq<bool>, corrprodKeep: seq<bool>, transforms: seq<Transform>)

  /** Lazy indexer of a vis-like dataset with `datasetDumps` dumps. */
  method VisLikeIndexer(timeKeep: seq<bool>, freqKeep: seq<bool>, corrprodKeep: seq<bool>,
                        datasetDumps: nat, extractor: Extractor, squeeze: bool)
    returns (ix: IndexerSetup)
    ensures |timeKeep| == datasetDumps - 1 ==>
      |ix.timeKeep| == datasetDumps && ix.timeKeep[..|timeKeep|] == timeKeep && !ix.timeKeep[datasetDumps - 1]
    ensures |timeKeep| != datasetDumps - 1 ==> ix.timeKeep == timeKeep
    ensures ix.freqKeep == freqKeep && ix.corrprodKeep == corrprodKeep
    ensures squeeze ==> ix.transforms == [Extract(extractor)]
    ensures !squeeze ==> ix.transforms == [Extract(extractor), KeepThreeAxes]
  {
    var mask := Stage1TimeKeep(timeKeep, datasetDumps);
    var transforms := if squeeze then [Extract(extractor)] else [Extract(extractor), KeepThreeAxes];
    ix := IndexerSetup(mask, freqKeep, corrprodKeep, transforms);
  }

  /** The weights accessor: the named weights (all by default) are combined
      by the product of their columns. */
  method Weights(names: VisSelectors.Names, knownWeights: seq<string>, timeKeep: seq<bool>,
                 freqKeep: seq<bool>, corrprodKeep: seq<bool>, datasetDumps: nat, squeeze: bool)
    returns (ix: IndexerSetup)
    ensures |ix.transforms| == if squeeze then 1 else 2
    ensures ix.transforms[0] ==
      Extract(ExtractWeights(VisSelectors.SelectedIndices(VisSelectors.ResolveNames(names, VisSelectors.WeightNames), knownWeights)))
    ensures !squeeze ==> ix.transforms[1] == KeepThreeAxes
    ensures |timeKeep| == datasetDumps - 1 ==>
      |ix.timeKeep| == datasetDumps && ix.timeKeep[..|timeKeep|] == timeKeep && !ix.timeKeep[datasetDumps - 1]
    ensures |timeKeep| != datasetDumps - 1 ==> ix.timeKeep == timeKeep
    ensures ix.freqKeep == freqKeep && ix.corrprodKeep == corrprodKeep
  {
    var resolved := VisSelectors.ResolveNames(names, VisSelectors.WeightNames);
    var selection := VisSelectors.WeightSelection(resolved, knownWeights);
    ix := VisLikeIndexer(timeKeep, freqKeep, corrprodKeep, datasetDumps, ExtractWeights(selection), squeeze);
  }

  /** The flags accessor: the named flags (all by default) are OR'ed
      together through the flag mask; a named flag known beyond the eighth
      position is an IndexError. */
  method Flags(names: VisSelectors.Names, knownFlags: seq<string>, timeKeep: seq<bool>,
               freqKeep: seq<bool>, corrprodKeep: seq<bool>, datasetDumps: nat, squeeze: bool)
    returns (r: Result<IndexerSetup, VisSelectors.Error>)
    ensures r.Success? ==> |r.value.transforms| == if squeeze then 1 else 2
    ensures r.Success? && !squeeze ==> r.value.transforms[1] == KeepThreeAxes
    ensures r.Success? && |timeKeep| == datasetDumps - 1 ==>
      |r.value.timeKeep| == datasetDumps && r.value.timeKeep[..|timeKeep|] == timeKeep && !r.value.timeKeep[datasetDumps - 1]
    ensures r.Success? && |timeKeep| != datasetDumps - 1 ==> r.value.timeKeep == timeKeep
    ensures r.Success? ==> r.value.freqKeep == freqKeep && r.value.corrprodKeep == corrprodKeep
    ensures var mask := VisSelectors.FlagMaskOf(VisSelectors.ResolveNames(names, VisSelectors.FlagNames), knownFlags);
      && (r.Failure? <==> mask.Failure?)
      && (r.Success? ==> r.value.transforms[0] == Extract(ExtractFlags(mask.value)))
  {
    var resolved := VisSelectors.ResolveNames(names, VisSelectors.FlagNames);
    var mask := VisSelectors.FlagMask(resolved, knownFlags);
    if mask.Failure? {
      return Failure(mask.error);
    }
    var ix := VisLikeIndexer(timeKeep, freqKeep, corrprodKeep, datasetDumps, ExtractFlags(mask.value), squeeze);
    return Success(ix);
  }
}
