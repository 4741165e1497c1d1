/** Public inputs of a circuit: field and curve-point inputs converted to
    their scalars, and the public-input vector the verifier is given, with
    the negated values at their gate positions and zero elsewhere. */
module Circuit {
  import opened Field

  /** `PublicInputValue`: the scalars one public input contributes. */
  datatype PublicInputValue = PublicInputValue(values: seq<Fe>)

  /** An affine curve point by its coordinates; the curve equation is not
      modelled. */
  datatype AffinePoint = AffinePoint(x: Fe, y: Fe)

  /** `fe_into`: a field element is one scalar. */
  function FeInto(v: Fe): (r: PublicInputValue)
    ensures |r.values| == 1 && r.values[0] == v
  {
    PublicInputValue([v])
  }

  /** `ge_into`: a curve point is its two coordinates, x first. */
  function GeInto(p: AffinePoint): (r: PublicInputValue)
    ensures |r.values| == 2 && r.values[0] == p.x && r.values[1] == p.y
  {
    PublicInputValue([p.x, p.y])
  }

  /** The inputs' scalars, input after input (`map(values).flatten()`). */
  function FlattenValues(inputs: seq<PublicInputValue>): seq<Fe> {
    if inputs == [] then [] else inputs[0].values + FlattenValues(inputs[1..])
  }

  /** Flattening keeps the inputs' order: the scalars of a concatenation are
      the scalars of each part, one after the other. */
  lemma {:induction false} FlattenValuesAppend(xs: seq<PublicInputValue>, ys: seq<PublicInputValue>)
    ensures FlattenValues(xs + ys) == FlattenValues(xs) + FlattenValues(ys)
  {
    if xs == [] {
      assert xs + ys == ys;
    } else {
      assert (xs + ys)[1..] == xs[1..] + ys;
      FlattenValuesAppend(xs[1..], ys);
    }
  }

  /** The number of (value, position) pairs the zip produces. */
  function PairCount(values: seq<Fe>, positions: seq<nat>): (r: nat)
    ensures r <= |values| && r <= |positions|
    ensures r == |values| || r == |positions|
  {
    if |values| < |positions| then |values| else |positions|
  }

  /** Every position that is written lies inside the vector. */
  predicate PositionsInRange(positions: seq<nat>, m: nat, trimSize: nat)
    requires m <= |positions|
  {
    forall k :: 0 <= k < m ==> positions[k] < trimSize
  }

  /** The vector after the first `m` writes `pi[positions[k]] = -values[k]`
      into `trimSize` zeros. */
  function Written(values: seq<Fe>, positions: seq<nat>, m: nat, trimSize: nat): (r: seq<Fe>)
    requires m <= |values| && m <= |positions|
    requires PositionsInRange(positions, m, trimSize)
    ensures |r| == trimSize
  {
    if m == 0 then seq<Fe>(trimSize, _ => 0)
    else Written(values, positions, m - 1, trimSize)[positions[m - 1] := Neg(values[m - 1])]
  }

  /** `build_pi`: a zeroed vector of `trim_size` scalars, and for each zipped
      pair of flattened value and position, the negated value written at
      that position. A position outside the vector aborts the source, so it
      is demanded of the caller. */
  method BuildPi(pubInputValues: seq<PublicInputValue>, pubInputPos: seq<nat>, trimSize: nat)
    returns (pi: seq<Fe>)
    requires PositionsInRange(pubInputPos, PairCount(FlattenValues(pubInputValues), pubInputPos), trimSize)
    ensures var values := FlattenValues(pubInputValues);
            pi == Written(values, pubInputPos, PairCount(values, pubInputPos), trimSize)
  {
    var values := FlattenValues(pubInputValues);
    var n := PairCount(values, pubInputPos);
    var a := new Fe[trimSize](_ => 0);
    assert a[..] == Written(values, pubInputPos, 0, trimSize);
    var i := 0;
    while i < n
      invariant 0 <= i <= n
      invariant a[..] == Written(values, pubInputPos, i, trimSize)
    {
      a[pubInputPos[i]] := Neg(values[i]);
      i := i + 1;
    }
    pi := a[..];
  }

  /** No pair among the first `m` writes at `j`. */
  predicate NotWritten(positions: seq<nat>, m: nat, j: nat)
    requires m <= |positions|
  {
    forall k :: 0 <= k < m ==> positions[k] != j
  }

  /** Pair `k` is the last among the first `m` to write at `j`. */
  predicate LastWrittenBy(positions: seq<nat>, m: nat, j: nat, k: nat)
    requires m <= |positions|
  {
    k < m && positions[k] == j && forall k' :: k < k' < m ==> positions[k'] != j
  }

  /** What the written vector holds at each index: zero where no pair
      writes, and otherwise the negated value of the last pair writing
      there. */
  lemma {:induction false} WrittenContents(values: seq<Fe>, positions: seq<nat>, m: nat, trimSize: nat, j: nat)
    requires m <= |values| && m <= |positions|
    requires PositionsInRange(positions, m, trimSize)
    requires j < trimSize
    ensures NotWritten(positions, m, j) ==> Written(values, positions, m, trimSize)[j] == 0
    ensures forall k: nat :: LastWrittenBy(positions, m, j, k) ==>
              Written(values, positions, m, trimSize)[j] == Neg(values[k])
  {
    if m > 0 {
      WrittenContents(values, positions, m - 1, trimSize, j);
      if positions[m - 1] == j {
        forall k: nat | LastWrittenBy(positions, m, j, k)
          ensures k == m - 1
        {
        }
      } else {
        forall k: nat | LastWrittenBy(positions, m, j, k)
          ensures LastWrittenBy(positions, m - 1, j, k)
        {
        }
        assert NotWritten(positions, m, j) ==> NotWritten(positions, m - 1, j);
      }
    }
  }

  /** A field input and a point input at positions 3, 0 and 3 of four: the
      point's x lands at 0, its y overwrites the field input at 3. */
  lemma BuildPiExample()
    ensures var values := FlattenValues([FeInto(3), GeInto(AffinePoint(1, 2))]);
            values == [3, 1, 2] &&
            Written(values, [3, 0, 3], 3, 4) == [Neg(1), 0, 0, Neg(2)]
  {
    var inputs := [FeInto(3), GeInto(AffinePoint(1, 2))];
    assert inputs[1..][1..] == [];
    assert FlattenValues(inputs[1..]) == [1, 2];
  }
}
