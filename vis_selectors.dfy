/**
 * The selectors behind the weights and flags accessors of the version-3
 * format driver: weight names become a list of weight-column indices whose
 * columns are multiplied together, and flag names become an 8-bit mask that
 * each visibility's flag byte is matched against.
 */
module VisSelectors {
  import opened Wrappers
  import Text

  datatype Error =
    | IndexError // a known weight or flag position outside the data

  /** Default weight names, in weight-column order. */
  const WeightNames: seq<string> := ["precision"]

  /** Default flag names, in bit order (most significant bit first). */
  const FlagNames: seq<string> :=
    ["reserved0", "static", "cam", "reserved3", "detected_rfi", "predicted_rfi", "reserved6", "reserved7"]

  /** How the caller names weights or flags: not at all (every default name),
      as one comma-separated string, or as a list of names. */
  datatype Names = DefaultNames | CommaSeparated(text: string) | NameList(names: seq<string>)

  function ResolveNames(names: Names, defaults: seq<string>): (r: seq<string>)
    ensures names.DefaultNames? ==> r == defaults
    ensures names.NameList? ==> r == names.names
    ensures names.CommaSeparated? ==>
      |r| >= 1 && Text.Join(r, ',') == names.text && forall k :: 0 <= k < |r| ==> ',' !in r[k]
  {
    match names
    case DefaultNames => defaults
    case CommaSeparated(text) => Text.Split(text, ',')
    case NameList(list) => list
  }

  /** Position of the first occurrence of `name` among the known names. */
  function FirstIndex(known: seq<string>, name: string): (r: Option<nat>)
    ensures r.None? <==> name !in known
    ensures r.Some? ==> r.value < |known| && known[r.value] == name
    ensures r.Some? ==> forall j :: 0 <= j < r.value ==> known[j] != name
  {
    if |known| == 0 then None
    else if known[0] == name then Some(0)
    else
      match FirstIndex(known[1..], name)
      case None => None
      case Some(i) => Some(i + 1)
  }

  // ---------------------------------------------------------------------
  // Weights
  // ---------------------------------------------------------------------

  /** Weight-column indices of the named weights, in the order named. */
  function SelectedIndices(names: seq<string>, known: seq<string>): (sel: seq<nat>)
    ensures |sel| <= |names|
    ensures forall k :: 0 <= k < |sel| ==> sel[k] < |known| && known[sel[k]] in names
  {
    if |names| == 0 then []
    else
      var last := match FirstIndex(known, names[|names| - 1]) case None => [] case Some(i) => [i];
      SelectedIndices(names[..|names| - 1], known) + last
  }

  /** The selection of a concatenation is the concatenation of the selections:
      the selection keeps the order of the names and every repeat. */
  lemma {:induction false} SelectedIndicesAppend(a: seq<string>, b: seq<string>, known: seq<string>)
    ensures SelectedIndices(a + b, known) == SelectedIndices(a, known) + SelectedIndices(b, known)
  {
    if |b| == 0 {
      assert a + b == a;
    } else {
      assert (a + b)[..|a + b| - 1] == a + b[..|b| - 1];
      assert (a + b)[|a + b| - 1] == b[|b| - 1];
      SelectedIndicesAppend(a, b[..|b| - 1], known);
    }
  }

  /** An unknown name contributes nothing to the selection. */
  lemma SelectedIndicesSkipUnknown(a: seq<string>, u: string, b: seq<string>, known: seq<string>)
    requires u !in known
    ensures SelectedIndices(a + [u] + b, known) == SelectedIndices(a + b, known)
  {
    SelectedIndicesAppend(a + [u], b, known);
    SelectedIndicesAppend(a, [u], known);
    SelectedIndicesAppend(a, b, known);
    assert [u][..0] == [];
  }

  /** When every name is known, the selection has one entry per name: the
      position of that name among the known weights. */
  lemma {:induction false} SelectedIndicesOfKnown(names: seq<string>, known: seq<string>)
    requires forall k :: 0 <= k < |names| ==> names[k] in known
    ensures |SelectedIndices(names, known)| == |names|
    ensures forall k :: 0 <= k < |names| ==> SelectedIndices(names, known)[k] == FirstIndex(known, names[k]).value
  {
    if |names| > 0 {
      var init := names[..|names| - 1];
      SelectedIndicesOfKnown(init, known);
    }
  }

  /** The weight-column selection built name by name; unknown names are
      skipped (the source only logs them). */
  method WeightSelection(names: seq<string>, known: seq<string>) returns (selection: seq<nat>)
    ensures selection == SelectedIndices(names, known)
  {
    selection := [];
    for i := 0 to |names|
      invariant selection == SelectedIndices(names[..i], known)
    {
      assert names[..i + 1][..i] == names[..i];
      var index := FirstIndex(known, names[i]);
      if index.Some? {
        selection := selection + [index.value];
      }
    }
    assert names[..|names|] == names;
  }

  /** Product of the selected weights; the empty product is 1. */
  function Product(w: seq<real>, sel: seq<nat>): real
    requires forall k :: 0 <= k < |sel| ==> sel[k] < |w|
  {
    if |sel| == 0 then 1.0 else Product(w, sel[..|sel| - 1]) * w[sel[|sel| - 1]]
  }

  /** Selecting a list of weights twice over multiplies their product in twice. */
  lemma {:induction false} ProductAppend(w: seq<real>, a: seq<nat>, b: seq<nat>)
    requires forall k :: 0 <= k < |a| ==> a[k] < |w|
    requires forall k :: 0 <= k < |b| ==> b[k] < |w|
    ensures Product(w, a + b) == Product(w, a) * Product(w, b)
  {
    if |b| == 0 {
      assert a + b == a;
    } else {
      var front, x := b[..|b| - 1], w[b[|b| - 1]];
      assert (a + b)[..|a + b| - 1] == a + front;
      ProductAppend(w, a, front);
      var pa, pf := Product(w, a), Product(w, front);
      assert Product(w, a + b) == (pa * pf) * x;
      assert (pa * pf) * x == pa * (pf * x);
    }
  }

  /** The combined weight of one visibility from its row of weight columns:
      the lone selected column, or else the product of the selected columns
      (1 when none is selected). Selecting a column the data lacks is an
      IndexError. */
  function ExtractWeight(w: seq<real>, sel: seq<nat>): (r: Result<real, Error>)
    ensures r.Failure? <==> exists k :: 0 <= k < |sel| && sel[k] >= |w|
    ensures r.Success? ==> r.value == Product(w, sel)
    ensures |sel| == 0 ==> r == Success(1.0)
  {
    if exists k :: 0 <= k < |sel| && sel[k] >= |w| then Failure(IndexError)
    else if |sel| == 1 then
      assert sel[..0] == [];
      Success(w[sel[0]])
    else Success(Product(w, sel))
  }

  /** The weights' shape: the data's shape without its last (weight-type) axis. */
  function DropLastAxis(shape: seq<nat>): (r: seq<nat>)
    ensures |shape| > 0 ==> shape == r + [shape[|shape| - 1]]
    ensures |shape| == 0 ==> r == []
  {
    if |shape| == 0 then [] else shape[..|shape| - 1]
  }

  /** With the default names the single default weight column is selected. */
  lemma DefaultWeightSelection()
    ensures SelectedIndices(ResolveNames(DefaultNames, WeightNames), WeightNames) == [0]
  {
    assert WeightNames[..0] == [];
  }

  // ---------------------------------------------------------------------
  // Flags
  // ---------------------------------------------------------------------

  /** The mask bit of the flag at position `i`: bits are packed most
      significant first. */
  function Bit(i: nat): bv8
    requires i < 8
  {
    (0x80 as bv8) >> i
  }

  /** The eight flag markers packed into one byte, the first marker in the
      most significant bit; any non-zero marker sets its bit. */
  function PackBits(bits: seq<int>): bv8
    requires |bits| == 8
  {
    (if bits[0] != 0 then 0x80 else 0) | (if bits[1] != 0 then 0x40 else 0)
    | (if bits[2] != 0 then 0x20 else 0) | (if bits[3] != 0 then 0x10 else 0)
    | (if bits[4] != 0 then 0x08 else 0) | (if bits[5] != 0 then 0x04 else 0)
    | (if bits[6] != 0 then 0x02 else 0) | (if bits[7] != 0 then 0x01 else 0)
  }

  /** Bit `i` of the packed byte is set exactly when marker `i` is non-zero. */
  lemma PackBitsBit(bits: seq<int>, i: nat)
    requires |bits| == 8 && i < 8
    ensures PackBits(bits) & Bit(i) != 0 <==> bits[i] != 0
  {
    if i == 0 {
    } else if i == 1 {
    } else if i == 2 {
    } else if i == 3 {
    } else if i == 4 {
    } else if i == 5 {
    } else if i == 6 {
    } else {
    }
  }

  /** A byte is zero exactly when none of its eight bits is set. */
  lemma ZeroIffNoBit(m: bv8)
    ensures m == 0 <==> forall i :: 0 <= i < 8 ==> m & Bit(i) == 0
  {
    if m != 0 {
      assert m & Bit(0) != 0 || m & Bit(1) != 0 || m & Bit(2) != 0 || m & Bit(3) != 0
          || m & Bit(4) != 0 || m & Bit(5) != 0 || m & Bit(6) != 0 || m & Bit(7) != 0;
    }
  }

  /** Some name among `names` is the known flag at position `j`. */
  predicate Marks(names: seq<string>, known: seq<string>, j: int)
  {
    exists k :: 0 <= k < |names| && FirstIndex(known, names[k]) == Some(j)
  }

  /** A known flag whose position lies outside the eight-entry marker array. */
  predicate OutOfMask(known: seq<string>, name: string)
  {
    FirstIndex(known, name).Some? && FirstIndex(known, name).value >= 8
  }

  /** The flag mask selected by `names`: an IndexError when a named flag is
      known beyond the eighth position, otherwise the packed markers of the
      named known flags. */
  function FlagMaskOf(names: seq<string>, known: seq<string>): Result<bv8, Error>
  {
    if exists k :: 0 <= k < |names| && OutOfMask(known, names[k]) then Failure(IndexError)
    else Success(PackBits(seq(8, j => if Marks(names, known, j) then 1 else 0)))
  }

  lemma MarksStep(names: seq<string>, known: seq<string>, i: nat, j: nat)
    requires i < |names|
    ensures Marks(names[..i + 1], known, j) <==> Marks(names[..i], known, j) || FirstIndex(known, names[i]) == Some(j)
  {
    if Marks(names[..i + 1], known, j) {
      var k :| 0 <= k < i + 1 && FirstIndex(known, names[..i + 1][k]) == Some(j);
      if k < i {
        assert names[..i][k] == names[k];
      }
    }
    if Marks(names[..i], known, j) {
      var k :| 0 <= k < i && FirstIndex(known, names[..i][k]) == Some(j);
      assert names[..i + 1][k] == names[k];
    }
    if FirstIndex(known, names[i]) == Some(j) {
      assert names[..i + 1][i] == names[i];
    }
  }

  /** The flag mask built name by name in an array of eight markers, then
      packed into a byte. */
  method FlagMask(names: seq<string>, known: seq<string>) returns (r: Result<bv8, Error>)
    ensures r == FlagMaskOf(names, known)
  {
    var bits := new int[8](_ => 0);
    for i := 0 to |names|
      invariant forall k :: 0 <= k < i ==> !OutOfMask(known, names[k])
      invariant forall j :: 0 <= j < 8 ==> bits[j] == if Marks(names[..i], known, j) then 1 else 0
    {
      forall j: nat | j < 8 {
        MarksStep(names, known, i, j);
      }
      var index := FirstIndex(known, names[i]);
      if index.Some? {
        if index.value >= 8 {
          return Failure(IndexError);
        }
        bits[index.value] := 1;
      }
    }
    assert names[..|names|] == names;
    assert bits[..] == seq(8, j => if Marks(names, known, j) then 1 else 0);
    return Success(PackBits(bits[..]));
  }

  /** The mask fails exactly when some named flag is known beyond the eighth
      position; otherwise bit `i` is set exactly when some name is the known
      flag at position `i`. */
  lemma FlagMaskBits(names: seq<string>, known: seq<string>, i: nat)
    requires i < 8
    ensures FlagMaskOf(names, known).Failure? <==>
      exists k :: 0 <= k < |names| && names[k] in known && FirstIndex(known, names[k]).value >= 8
    ensures FlagMaskOf(names, known).Success? ==>
      (FlagMaskOf(names, known).value & Bit(i) != 0 <==>
       exists k :: 0 <= k < |names| && names[k] in known && FirstIndex(known, names[k]).value == i)
  {
    if FlagMaskOf(names, known).Success? {
      PackBitsBit(seq(8, j => if Marks(names, known, j) then 1 else 0), i);
    }
  }

  /** The mask is zero exactly when no name is a known flag. */
  lemma FlagMaskZero(names: seq<string>, known: seq<string>)
    requires FlagMaskOf(names, known).Success?
    ensures FlagMaskOf(names, known).value == 0 <==> forall k :: 0 <= k < |names| ==> names[k] !in known
  {
    var m := FlagMaskOf(names, known).value;
    ZeroIffNoBit(m);
    forall i: nat | i < 8 {
      FlagMaskBits(names, known, i);
    }
    forall k | 0 <= k < |names| && names[k] in known
      ensures FirstIndex(known, names[k]).value < 8 && m & Bit(FirstIndex(known, names[k]).value) != 0
    {
      assert !OutOfMask(known, names[k]);
    }
  }

  /** Naming a flag again does not change the mask. */
  lemma FlagMaskRepeat(names: seq<string>, known: seq<string>, k: nat)
    requires k < |names|
    ensures FlagMaskOf(names + [names[k]], known) == FlagMaskOf(names, known)
  {
    var more := names + [names[k]];
    forall j: nat
      ensures Marks(more, known, j) == Marks(names, known, j)
    {
      if Marks(more, known, j) {
        var k' :| 0 <= k' < |more| && FirstIndex(known, more[k']) == Some(j);
        if k' == |names| {
          assert FirstIndex(known, names[k]) == Some(j);
        } else {
          assert more[k'] == names[k'];
        }
      }
      if Marks(names, known, j) {
        var k' :| 0 <= k' < |names| && FirstIndex(known, names[k']) == Some(j);
        assert more[k'] == names[k'];
      }
    }
    assert (exists k' :: 0 <= k' < |more| && OutOfMask(known, more[k']))
       <==> (exists k' :: 0 <= k' < |names| && OutOfMask(known, names[k'])) by {
      if exists k' :: 0 <= k' < |more| && OutOfMask(known, more[k']) {
        var k' :| 0 <= k' < |more| && OutOfMask(known, more[k']);
        if k' < |names| {
          assert more[k'] == names[k'];
        } else {
          assert OutOfMask(known, names[k]);
        }
      }
      if exists k' :: 0 <= k' < |names| && OutOfMask(known, names[k']) {
        var k' :| 0 <= k' < |names| && OutOfMask(known, names[k']);
        assert more[k'] == names[k'];
      }
    }
    assert seq(8, j => if Marks(more, known, j) then 1 else 0) == seq(8, j => if Marks(names, known, j) then 1 else 0);
  }

  /** A name that is not a known flag does not change the mask. */
  lemma FlagMaskSkipsUnknown(names: seq<string>, known: seq<string>, u: string)
    requires u !in known
    ensures FlagMaskOf(names + [u], known) == FlagMaskOf(names, known)
  {
    var more := names + [u];
    forall j: nat
      ensures Marks(more, known, j) == Marks(names, known, j)
    {
      if Marks(more, known, j) {
        var k' :| 0 <= k' < |more| && FirstIndex(known, more[k']) == Some(j);
        assert k' < |names| && more[k'] == names[k'];
      }
      if Marks(names, known, j) {
        var k' :| 0 <= k' < |names| && FirstIndex(known, names[k']) == Some(j);
        assert more[k'] == names[k'];
      }
    }
    assert (exists k' :: 0 <= k' < |more| && OutOfMask(known, more[k']))
       <==> (exists k' :: 0 <= k' < |names| && OutOfMask(known, names[k'])) by {
      if exists k' :: 0 <= k' < |more| && OutOfMask(known, more[k']) {
        var k' :| 0 <= k' < |more| && OutOfMask(known, more[k']);
        assert k' < |names| && more[k'] == names[k'];
      }
      if exists k' :: 0 <= k' < |names| && OutOfMask(known, names[k']) {
        var k' :| 0 <= k' < |names| && OutOfMask(known, names[k']);
        assert more[k'] == names[k'];
      }
    }
    assert seq(8, j => if Marks(more, known, j) then 1 else 0) == seq(8, j => if Marks(names, known, j) then 1 else 0);
  }

  /** A visibility is flagged when its flag byte shares a set bit with the mask. */
  function ExtractFlag(mask: bv8, flags: bv8): bool
  {
    flags & mask != 0
  }

  /** A visibility is flagged exactly when one of the selected flag types is
      raised in its flag byte; with an empty mask nothing is flagged. */
  lemma ExtractFlagMeaning(mask: bv8, flags: bv8)
    ensures ExtractFlag(mask, flags) <==> exists i :: 0 <= i < 8 && mask & Bit(i) != 0 && flags & Bit(i) != 0
    ensures mask == 0 ==> !ExtractFlag(mask, flags)
  {
    ZeroIffNoBit(flags & mask);
    forall i: nat | i < 8
      ensures (flags & mask) & Bit(i) != 0 <==> mask & Bit(i) != 0 && flags & Bit(i) != 0
    {
      BitOfAnd(mask, flags, i);
    }
  }

  lemma BitOfAnd(mask: bv8, flags: bv8, i: nat)
    requires i < 8
    ensures (flags & mask) & Bit(i) != 0 <==> mask & Bit(i) != 0 && flags & Bit(i) != 0
  {
    if i == 0 {
    } else if i == 1 {
    } else if i == 2 {
    } else if i == 3 {
    } else if i == 4 {
    } else if i == 5 {
    } else if i == 6 {
    } else {
    }
  }
}
