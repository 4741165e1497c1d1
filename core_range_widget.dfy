/** The range gate of the `plonk-core` crate: the same constraint as
    `RangeWidget`, over the prover's wire evaluations `a, r, c, d` and the
    next row's fourth wire `d_next`. */
module CoreRangeWidget {
  import opened Field
  import RangeWidget

  /** The wire evaluations the gate reads. */
  datatype WitnessValues = WitnessValues(aEval: Fe, rEval: Fe, cEval: Fe, dEval: Fe)

  /** The gate's custom evaluation: the fourth wire at the next row. */
  datatype RangeVals = RangeVals(dNextEval: Fe)

  /** `delta(f) = f (f - 1) (f - 2) (f - 3)`. */
  function Delta(f: Fe): (r: Fe)
    ensures r == 0 <==> f == 0 || f == 1 || f == 2 || f == 3
  {
    var f1 := Sub(f, 1);
    var f2 := Sub(f, FromNat(2));
    var f3 := Sub(f, FromNat(3));
    RangeWidget.DigitProductZeroIff(f);
    Mul(Mul(Mul(f, f1), f2), f3)
  }

  /** The range constraint over one row's evaluations. */
  function Constraints(separationChallenge: Fe, witVals: WitnessValues, customVals: RangeVals): Fe {
    var four := FromNat(4);
    var kappa := Square(separationChallenge);
    var kappaSq := Square(kappa);
    var kappaCu := Mul(kappaSq, kappa);
    var b1 := Delta(Sub(witVals.cEval, Mul(four, witVals.dEval)));
    var b2 := Mul(Delta(Sub(witVals.rEval, Mul(four, witVals.cEval))), kappa);
    var b3 := Mul(Delta(Sub(witVals.aEval, Mul(four, witVals.rEval))), kappaSq);
    var b4 := Mul(Delta(Sub(customVals.dNextEval, Mul(four, witVals.aEval))), kappaCu);
    Mul(Add(Add(Add(b1, b2), b3), b4), separationChallenge)
  }

  /** The two crates' range gates agree when the wires are matched up:
      output is c, fourth is d, right is r, left is a, fourth_next is d_next. */
  lemma AgreesWithRangeWidget(sep: Fe, w: WitnessValues, v: RangeVals)
    ensures Constraints(sep, w, v)
         == RangeWidget.Constraints(sep, RangeWidget.GateValues(w.aEval, w.rEval, w.cEval, w.dEval, v.dNextEval))
  {
  }

  /** A row whose four base-4 steps are all digits satisfies the gate. */
  lemma ConstraintsVanishOnDigits(sep: Fe, w: WitnessValues, v: RangeVals)
    requires RangeWidget.IsDigitStep(w.cEval, w.dEval)
    requires RangeWidget.IsDigitStep(w.rEval, w.cEval)
    requires RangeWidget.IsDigitStep(w.aEval, w.rEval)
    requires RangeWidget.IsDigitStep(v.dNextEval, w.aEval)
    ensures Constraints(sep, w, v) == 0
  {
    AgreesWithRangeWidget(sep, w, v);
    RangeWidget.ConstraintsVanishOnDigits(sep, RangeWidget.GateValues(w.aEval, w.rEval, w.cEval, w.dEval, v.dNextEval));
  }

  /** With a zero separation challenge the gate contributes nothing. */
  lemma ConstraintsVanishOnZeroChallenge(w: WitnessValues, v: RangeVals)
    ensures Constraints(0, w, v) == 0
  {
    AgreesWithRangeWidget(0, w, v);
    RangeWidget.ConstraintsVanishOnZeroChallenge(RangeWidget.GateValues(w.aEval, w.rEval, w.cEval, w.dEval, v.dNextEval));
  }
}
