/**
 * Which antennas the observation used, and the list of correlation
 * products the driver settles on: optionally rotated left by one to undo
 * an early correlator labelling bug, then, if its length still disagrees
 * with the data, restricted to products between observed antennas.
 */
module CorrProducts {
  import opened Wrappers
  import Text

  datatype Error =
    | IndexError // first element of an empty list
    | BrokenFile // baseline labels cannot be matched to the data

  /** A correlation product: the labels of its two correlator inputs, each an
      antenna name followed by a one-letter polarisation. */
  datatype CorrProd = CorrProd(input1: string, input2: string)

  /** Antennas used by the script: the comma-separated `ants` observation
      parameter when it is present and not empty, otherwise every antenna. */
  function ObservedAntennas(antsParam: Option<string>, allAnts: seq<string>): (r: seq<string>)
    ensures antsParam.Some? && antsParam.value != "" ==>
      |r| >= 1 && Text.Join(r, ',') == antsParam.value && forall k :: 0 <= k < |r| ==> ',' !in r[k]
    ensures antsParam.None? || antsParam.value == "" ==> r == allAnts
  {
    if antsParam.Some? && antsParam.value != "" then Text.Split(antsParam.value, ',') else allAnts
  }

  /** Reference antenna: the requested one, or else the first observed antenna. */
  function ReferenceAntenna(refAnt: string, obsAnts: seq<string>): (r: Result<string, Error>)
    ensures refAnt != "" ==> r == Success(refAnt)
    ensures refAnt == "" ==> (r.Failure? <==> |obsAnts| == 0)
    ensures refAnt == "" && r.Success? ==> r.value == obsAnts[0]
  {
    if refAnt != "" then Success(refAnt)
    else if |obsAnts| == 0 then Failure(IndexError)
    else Success(obsAnts[0])
  }

  /** The products reordered so that each takes the place of the one before
      it and the first moves to the end; an empty list cannot be indexed. */
  function RotateLeft(cps: seq<CorrProd>): (r: Result<seq<CorrProd>, Error>)
    ensures r.Failure? <==> |cps| == 0
    ensures r.Success? ==> |r.value| == |cps| && multiset(r.value) == multiset(cps)
    ensures r.Success? ==> (forall i :: 0 <= i < |cps| - 1 ==> r.value[i] == cps[i + 1]) && r.value[|cps| - 1] == cps[0]
  {
    if |cps| == 0 then Failure(IndexError)
    else
      assert cps == [cps[0]] + cps[1..];
      Success(cps[1..] + [cps[0]])
  }

  /** Antenna of a correlator input label: the label without its last character. */
  function AntennaOf(input: string): string
  {
    Text.DropLast(input)
  }

  /** Both inputs of the product belong to observed antennas. */
  predicate InObservation(cp: CorrProd, obsAnts: seq<string>)
  {
    AntennaOf(cp.input1) in obsAnts && AntennaOf(cp.input2) in obsAnts
  }

  /** The products between observed antennas, in their original order. */
  function KeepObserved(cps: seq<CorrProd>, obsAnts: seq<string>): (r: seq<CorrProd>)
    ensures |r| <= |cps|
    ensures forall cp :: cp in r <==> cp in cps && InObservation(cp, obsAnts)
  {
    if |cps| == 0 then []
    else (if InObservation(cps[0], obsAnts) then [cps[0]] else []) + KeepObserved(cps[1..], obsAnts)
  }

  /** Filtering distributes over concatenation, so it keeps the relative order
      of the products it keeps (and keeps repeated products). */
  lemma {:induction false} KeepObservedAppend(a: seq<CorrProd>, b: seq<CorrProd>, obsAnts: seq<string>)
    ensures KeepObserved(a + b, obsAnts) == KeepObserved(a, obsAnts) + KeepObserved(b, obsAnts)
  {
    if |a| > 0 {
      assert (a + b)[1..] == a[1..] + b;
      KeepObservedAppend(a[1..], b, obsAnts);
    } else {
      assert a + b == b;
    }
  }

  /** Filtering twice is filtering once, and a list of observed products is kept whole. */
  lemma {:induction false} KeepObservedIdempotent(cps: seq<CorrProd>, obsAnts: seq<string>)
    ensures KeepObserved(KeepObserved(cps, obsAnts), obsAnts) == KeepObserved(cps, obsAnts)
  {
    if |cps| > 0 {
      var head := if InObservation(cps[0], obsAnts) then [cps[0]] else [];
      var tail := KeepObserved(cps[1..], obsAnts);
      KeepObservedAppend(head, tail, obsAnts);
      KeepObservedIdempotent(cps[1..], obsAnts);
      if head != [] {
        assert KeepObserved(head, obsAnts) == head by {
          assert head[1..] == [];
        }
      }
    }
  }

  /** Rotation does not change how many products survive the filter. */
  lemma RotationKeepsObservedCount(cps: seq<CorrProd>, obsAnts: seq<string>)
    requires |cps| > 0
    ensures |KeepObserved(cps[1..] + [cps[0]], obsAnts)| == |KeepObserved(cps, obsAnts)|
  {
    KeepObservedAppend(cps[1..], [cps[0]], obsAnts);
    KeepObservedAppend([cps[0]], cps[1..], obsAnts);
    assert [cps[0]] + cps[1..] == cps;
  }

  /** The correlation products the driver keeps for `numBaselines` baselines
      in the data. Products already matching the data are used as they are
      (after the optional rotation); otherwise only products between observed
      antennas are kept, and the file is broken if that still does not match. */
  function ResolveCorrProds(bls: seq<CorrProd>, rotate: bool, obsAnts: seq<string>, numBaselines: nat)
    : (r: Result<seq<CorrProd>, Error>)
    ensures rotate && |bls| == 0 ==> r == Failure(IndexError)
    ensures !(rotate && |bls| == 0) ==>
      (r.Failure? <==> |bls| != numBaselines && |KeepObserved(bls, obsAnts)| != numBaselines)
    ensures r.Success? ==> |r.value| == numBaselines
    ensures r.Success? ==> forall cp :: cp in r.value ==> cp in bls
    ensures r.Success? && |bls| != numBaselines ==> forall cp :: cp in r.value ==> InObservation(cp, obsAnts)
    ensures !rotate && |bls| == numBaselines ==> r == Success(bls)
    ensures rotate && |bls| == numBaselines && |bls| > 0 ==> r == Success(bls[1..] + [bls[0]])
    ensures r.Success? && |bls| != numBaselines ==>
      r.value == KeepObserved(if rotate && |bls| > 0 then bls[1..] + [bls[0]] else bls, obsAnts)
  {
    var ordered := if rotate then RotateLeft(bls) else Success(bls);
    match ordered
    case Failure(e) => Failure(e)
    case Success(cps) =>
      if |cps| == numBaselines then Success(cps)
      else
        var kept := KeepObserved(cps, obsAnts);
        assert |kept| == |KeepObserved(bls, obsAnts)| by {
          if rotate {
            RotationKeepsObservedCount(bls, obsAnts);
          }
        }
        if |kept| == numBaselines then Success(kept) else Failure(BrokenFile)
  }
}
