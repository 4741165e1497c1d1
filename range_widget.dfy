/** The range gate's constraint: each of four consecutive base-4 steps of an
    accumulated value must add a single digit in {0, 1, 2, 3}. The gate is
    generic over the field; the model fixes the field of prime order P > 3,
    where `delta` vanishes exactly on those four digits. */
module RangeWidget {
  import opened Field

  /** The wire values the gate reads at one row, and the fourth wire of the
      next row. */
  datatype GateValues = GateValues(left: Fe, right: Fe, output: Fe, fourth: Fe, fourthNext: Fe)

  /** `delta(f) = f (f - 1) (f - 2) (f - 3)`; in a field of characteristic
      above 3 it vanishes exactly on the base-4 digits 0, 1, 2 and 3. */
  function Delta(f: Fe): (r: Fe)
    ensures r == 0 <==> f == 0 || f == 1 || f == 2 || f == 3
  {
    var f1 := Sub(f, 1);
    var f2 := Sub(f, FromNat(2));
    var f3 := Sub(f, FromNat(3));
    DigitProductZeroIff(f);
    Mul(Mul(Mul(f, f1), f2), f3)
  }

  /** The range constraint, the four digit checks combined with powers of
      kappa = separation_challenge^2 and scaled by the challenge. */
  function Constraints(separationChallenge: Fe, values: GateValues): Fe {
    var four := FromNat(4);
    var kappa := Square(separationChallenge);
    var kappaSq := Square(kappa);
    var kappaCu := Mul(kappaSq, kappa);
    var b1 := Delta(Sub(values.output, Mul(four, values.fourth)));
    var b2 := Mul(Delta(Sub(values.right, Mul(four, values.output))), kappa);
    var b3 := Mul(Delta(Sub(values.left, Mul(four, values.right))), kappaSq);
    var b4 := Mul(Delta(Sub(values.fourthNext, Mul(four, values.left))), kappaCu);
    Mul(Add(Add(Add(b1, b2), b3), b4), separationChallenge)
  }

  /** `f - k` vanishes exactly when `f` is `k`. */
  lemma SubZeroIff(f: Fe, k: Fe)
    ensures Sub(f, k) == 0 <==> f == k
  {
    ModNear(f - k);
  }

  /** The product f (f - 1) (f - 2) (f - 3) vanishes exactly when one of its
      factors does, since the field has no zero divisors. */
  lemma DigitProductZeroIff(f: Fe)
    ensures Mul(Mul(Mul(f, Sub(f, 1)), Sub(f, FromNat(2))), Sub(f, FromNat(3))) == 0
        <==> f == 0 || f == 1 || f == 2 || f == 3
  {
    ModNear(2);
    ModNear(3);
    var f1, f2, f3 := Sub(f, 1), Sub(f, 2), Sub(f, 3);
    SubZeroIff(f, 1);
    SubZeroIff(f, 2);
    SubZeroIff(f, 3);
    if f == 0 || f1 == 0 {
      MulZero(f1);
      MulZero(f);
    }
    if f == 0 || f1 == 0 || f2 == 0 {
      MulZero(Mul(f, f1));
      MulZero(f2);
    }
    if f == 0 || f1 == 0 || f2 == 0 || f3 == 0 {
      MulZero(Mul(Mul(f, f1), f2));
      MulZero(f3);
    } else {
      MulNonZero(f, f1);
      MulNonZero(Mul(f, f1), f2);
      MulNonZero(Mul(Mul(f, f1), f2), f3);
    }
  }

  /** Each step `x - 4 y` of the decomposition is a base-4 digit. */
  predicate IsDigitStep(x: Fe, y: Fe) {
    Sub(x, Mul(FromNat(4), y)) < 4
  }

  /** A row whose four steps are all digits satisfies the range gate. */
  lemma ConstraintsVanishOnDigits(separationChallenge: Fe, values: GateValues)
    requires IsDigitStep(values.output, values.fourth)
    requires IsDigitStep(values.right, values.output)
    requires IsDigitStep(values.left, values.right)
    requires IsDigitStep(values.fourthNext, values.left)
    ensures Constraints(separationChallenge, values) == 0
  {
    var kappa := Square(separationChallenge);
    var kappaSq := Square(kappa);
    MulZero(kappa);
    MulZero(kappaSq);
    MulZero(Mul(kappaSq, kappa));
    MulZero(separationChallenge);
  }

  /** With a zero separation challenge the gate contributes nothing. */
  lemma ConstraintsVanishOnZeroChallenge(values: GateValues)
    ensures Constraints(0, values) == 0
  {
    var four := FromNat(4);
    var b1 := Delta(Sub(values.output, Mul(four, values.fourth)));
    MulZero(Square(0));
    MulZero(Mul(Square(0), Square(0)));
    MulZero(Add(Add(Add(b1, 0), 0), 0));
  }
}
