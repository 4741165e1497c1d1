/** The Plookup widget: the lookup gate's contribution to the quotient at a
    domain point, the prover's linearisation polynomial, and the verifier's
    (scalar, commitment) pairs for the same linearisation. */
module LookupWidget {
  import opened Field
  import opened Poly
  import opened Commitment
  import ArithmeticWidget

  /** The prover key: the lookup selector as polynomial and evaluations, and
      the four table columns. */
  datatype ProverKey = ProverKey(
    qLookup: ArithmeticWidget.Selector,
    table1: seq<Fe>, table2: seq<Fe>, table3: seq<Fe>, table4: seq<Fe>)

  /** The verifier key: the commitment to the lookup selector. */
  datatype VerifierKey = VerifierKey(qLookup: Point)

  /** Wire evaluations at the challenge point. */
  datatype WireEvaluations = WireEvaluations(aEval: Fe, bEval: Fe, cEval: Fe, dEval: Fe)

  /** Lookup evaluations at the challenge point. */
  datatype LookupEvaluations = LookupEvaluations(
    fEval: Fe, tableEval: Fe, tableNextEval: Fe, h1Eval: Fe, h2Eval: Fe, z2NextEval: Fe)

  datatype ProofEvaluations = ProofEvaluations(wireEvals: WireEvaluations, lookupEvals: LookupEvaluations)

  /** The values `compute_quotient_i` reads at one domain point. */
  datatype QuotientValues = QuotientValues(
    wL: Fe, wR: Fe, wO: Fe, w4: Fe, f: Fe, table: Fe, tableNext: Fe,
    h1: Fe, h1Next: Fe, h2: Fe, z2: Fe, z2Next: Fe, l1: Fe)

  /** The challenges (delta, epsilon, zeta) and the lookup separation
      challenge. */
  datatype Challenges = Challenges(delta: Fe, epsilon: Fe, zeta: Fe, lookupSep: Fe)

  /** `compress`: the row `(w_l, w_r, w_o, w_4)` combined by `lc` with powers
      of `zeta`, i.e. the polynomial with those coefficients evaluated at
      `zeta`. */
  function Compress(wL: Fe, wR: Fe, wO: Fe, w4: Fe, zeta: Fe): (r: Fe)
    ensures r == Add(Add(Add(wL, Mul(zeta, wR)), Mul(Mul(zeta, zeta), wO)),
                     Mul(Mul(Mul(zeta, zeta), zeta), w4))
  {
    EvalFourExpands(wL, wR, wO, w4, zeta);
    Eval([wL, wR, wO, w4], zeta)
  }

  /** Four coefficients evaluated by Horner's rule are a + z*b + z^2*c +
      z^3*d, the expansion the verifier writes out. */
  lemma EvalFourExpands(a: Fe, b: Fe, c: Fe, d: Fe, z: Fe)
    ensures Eval([a, b, c, d], z)
         == Add(Add(Add(a, Mul(z, b)), Mul(Mul(z, z), c)), Mul(Mul(Mul(z, z), z), d))
  {
    EvalFourUnfolds(a, b, c, d, z);
    var zz := Mul(z, z);
    ScaleTwoTerms(z, c, d);
    // b + z*(c + z*d) scaled by z
    ScaleThreeTerms(z, b, Mul(z, c), Mul(zz, d));
    MulAssoc(z, z, c);
    MulAssoc(z, zz, d);
    MulComm(z, zz);
    AddAssoc(a, Add(Mul(z, b), Mul(zz, c)), Mul(Mul(zz, z), d));
    AddAssoc(a, Mul(z, b), Mul(zz, c));
  }

  /** Horner's rule written out for four coefficients. */
  lemma EvalFourUnfolds(a: Fe, b: Fe, c: Fe, d: Fe, z: Fe)
    ensures Eval([a, b, c, d], z) == Add(a, Mul(z, Add(b, Mul(z, Add(c, Mul(z, d))))))
  {
    assert Eval([d], z) == d by {
      assert [d][1..] == [];
      MulZero(z);
      AddZero(d);
    }
    assert Eval([c, d], z) == Add(c, Mul(z, d)) by {
      assert [c, d][1..] == [d];
    }
    assert Eval([b, c, d], z) == Add(b, Mul(z, Add(c, Mul(z, d)))) by {
      assert [b, c, d][1..] == [c, d];
    }
    assert [a, b, c, d][1..] == [b, c, d];
  }

  /** z (c + z d) == z c + z^2 d */
  lemma ScaleTwoTerms(z: Fe, c: Fe, d: Fe)
    ensures Mul(z, Add(c, Mul(z, d))) == Add(Mul(z, c), Mul(Mul(z, z), d))
  {
    Distrib(z, c, Mul(z, d));
    MulAssoc(z, z, d);
  }

  /** z (b + (u + v)) == (z b + z u) + z v */
  lemma ScaleThreeTerms(z: Fe, b: Fe, u: Fe, v: Fe)
    ensures Mul(z, Add(b, Add(u, v))) == Add(Add(Mul(z, b), Mul(z, u)), Mul(z, v))
  {
    AddAssoc(b, u, v);
    Distrib(z, Add(b, u), v);
    Distrib(z, b, u);
  }

  // ---------------------------------------------------------------------------
  // Quotient

  /** q_lookup * (compressed row - f) * sep: the row's tuple is the lookup
      value `f`. */
  function TermA(qLookupI: Fe, v: QuotientValues, ch: Challenges): (r: Fe)
    ensures qLookupI == 0 || Compress(v.wL, v.wR, v.wO, v.w4, ch.zeta) == v.f ==> r == 0
  {
    var compressed := Compress(v.wL, v.wR, v.wO, v.w4, ch.zeta);
    SubSelf(v.f);
    MulZero(Sub(compressed, v.f));
    MulZero(qLookupI);
    MulZero(ch.lookupSep);
    Mul(Mul(qLookupI, Sub(compressed, v.f)), ch.lookupSep)
  }

  /** z2 * (1 + delta) * (epsilon + f) * (epsilon (1 + delta) + t + delta t_next) * sep^2. */
  function TermB(v: QuotientValues, ch: Challenges): (r: Fe)
    ensures v.z2 == 0 || ch.lookupSep == 0 ==> r == 0
  {
    var onePlusDelta := Add(ch.delta, 1);
    var b1 := Add(ch.epsilon, v.f);
    var b2 := Add(Add(Mul(ch.epsilon, onePlusDelta), v.table), Mul(ch.delta, v.tableNext));
    MulZero(onePlusDelta);
    MulZero(b1);
    MulZero(b2);
    MulZero(Square(ch.lookupSep));
    MulZero(Mul(Mul(Mul(v.z2, onePlusDelta), b1), b2));
    Mul(Mul(Mul(Mul(v.z2, onePlusDelta), b1), b2), Square(ch.lookupSep))
  }

  /** -z2_next * (epsilon (1 + delta) + h1 + delta h2)
      * (epsilon (1 + delta) + h2 + delta h1_next) * sep^2. */
  function TermC(v: QuotientValues, ch: Challenges): (r: Fe)
    ensures v.z2Next == 0 || ch.lookupSep == 0 ==> r == 0
  {
    var epsOnePlusDelta := Mul(ch.epsilon, Add(ch.delta, 1));
    var c1 := Add(Add(epsOnePlusDelta, v.h1), Mul(ch.delta, v.h2));
    var c2 := Add(Add(epsOnePlusDelta, v.h2), Mul(ch.delta, v.h1Next));
    MulZero(c1);
    MulZero(c2);
    MulZero(Square(ch.lookupSep));
    MulZero(Mul(Mul(Neg(v.z2Next), c1), c2));
    Mul(Mul(Mul(Neg(v.z2Next), c1), c2), Square(ch.lookupSep))
  }

  /** (z2 - 1) * l1 * sep^3: z2 starts at one. */
  function TermD(v: QuotientValues, ch: Challenges): (r: Fe)
    ensures v.z2 == 1 || v.l1 == 0 ==> r == 0
  {
    var sepCu := Mul(Square(ch.lookupSep), ch.lookupSep);
    SubSelf(1);
    MulZero(v.l1);
    MulZero(Sub(v.z2, 1));
    MulZero(sepCu);
    Mul(Mul(Sub(v.z2, 1), v.l1), sepCu)
  }

  /** `compute_quotient_i`: the four terms added, with the lookup selector
      taken at `index`. It vanishes at every point where the lookup gate
      holds, the grand product steps and z2 starts at one (where l1 is
      non-zero). */
  function ComputeQuotientI(pk: ProverKey, index: nat, v: QuotientValues, ch: Challenges): (r: Fe)
    requires index < |pk.qLookup.evals|
    ensures (LookupGateHolds(pk.qLookup.evals[index], v, ch.zeta) && GrandProductStep(v, ch)
             && (v.z2 == 1 || v.l1 == 0)) ==> r == 0
  {
    var qLookupI := pk.qLookup.evals[index];
    var q := Add(Add(Add(TermA(qLookupI, v, ch), TermB(v, ch)), TermC(v, ch)), TermD(v, ch));
    if LookupGateHolds(qLookupI, v, ch.zeta) && GrandProductStep(v, ch) && (v.z2 == 1 || v.l1 == 0) then
      TermsVanish(qLookupI, v, ch);
      q
    else
      q
  }

  /** The lookup gate holds on the row: either it is not a lookup row, or
      the compressed wires are the looked-up value. */
  predicate LookupGateHolds(qLookupI: Fe, v: QuotientValues, zeta: Fe) {
    qLookupI == 0 || Compress(v.wL, v.wR, v.wO, v.w4, zeta) == v.f
  }

  /** The grand product z2 steps from one point to the next:
      z2 (1 + delta)(epsilon + f)(epsilon (1 + delta) + t + delta t_next)
      == z2_next (epsilon (1 + delta) + h1 + delta h2)(epsilon (1 + delta) + h2 + delta h1_next). */
  predicate GrandProductStep(v: QuotientValues, ch: Challenges) {
    var onePlusDelta := Add(ch.delta, 1);
    var epsOnePlusDelta := Mul(ch.epsilon, onePlusDelta);
    var b1 := Add(ch.epsilon, v.f);
    var b2 := Add(Add(epsOnePlusDelta, v.table), Mul(ch.delta, v.tableNext));
    var c1 := Add(Add(epsOnePlusDelta, v.h1), Mul(ch.delta, v.h2));
    var c2 := Add(Add(epsOnePlusDelta, v.h2), Mul(ch.delta, v.h1Next));
    Mul(Mul(Mul(v.z2, onePlusDelta), b1), b2) == Mul(Mul(v.z2Next, c1), c2)
  }

  /** Where the lookup gate holds, the grand product steps and z2 starts at
      one, the four quotient terms add up to zero. */
  lemma TermsVanish(qLookupI: Fe, v: QuotientValues, ch: Challenges)
    requires LookupGateHolds(qLookupI, v, ch.zeta)
    requires GrandProductStep(v, ch)
    requires v.z2 == 1 || v.l1 == 0
    ensures Add(Add(Add(TermA(qLookupI, v, ch), TermB(v, ch)), TermC(v, ch)), TermD(v, ch)) == 0
  {
    var a := TermA(qLookupI, v, ch);
    var b, c, d := TermB(v, ch), TermC(v, ch), TermD(v, ch);
    assert a == 0 && d == 0;
    TermsBCCancel(v, ch);
    assert Add(a, b) == b by { AddZero(b); AddComm(0, b); }
    assert Add(Add(b, c), d) == 0 by { AddZero(0); }
  }

  lemma TermsBCCancel(v: QuotientValues, ch: Challenges)
    requires GrandProductStep(v, ch)
    ensures Add(TermB(v, ch), TermC(v, ch)) == 0
  {
    var epsOnePlusDelta := Mul(ch.epsilon, Add(ch.delta, 1));
    var c1 := Add(Add(epsOnePlusDelta, v.h1), Mul(ch.delta, v.h2));
    var c2 := Add(Add(epsOnePlusDelta, v.h2), Mul(ch.delta, v.h1Next));
    var x := Mul(Mul(v.z2Next, c1), c2);
    var s := Square(ch.lookupSep);
    NegMulLeft(v.z2Next, c1);
    NegMulLeft(Mul(v.z2Next, c1), c2);
    DistribRight(x, Neg(x), s);
    AddNegSelf(x);
    MulZero(s);
  }

  // ---------------------------------------------------------------------------
  // Linearisation

  /** The coefficient of the lookup selector: (compressed row - f) * sep. */
  function QLookupCoeff(e: ProofEvaluations, ch: Challenges): Fe {
    var w := e.wireEvals;
    Mul(Sub(Compress(w.aEval, w.bEval, w.cEval, w.dEval, ch.zeta), e.lookupEvals.fEval), ch.lookupSep)
  }

  /** The first coefficient of z2:
      (1 + delta) (epsilon + f) (epsilon (1 + delta) + t + delta t_next) sep^2. */
  function Z2CoeffB(e: ProofEvaluations, ch: Challenges): Fe {
    var l := e.lookupEvals;
    var onePlusDelta := Add(ch.delta, 1);
    var b0 := Add(ch.epsilon, l.fEval);
    var b1 := Add(Add(Mul(ch.epsilon, onePlusDelta), l.tableEval), Mul(ch.delta, l.tableNextEval));
    Mul(Mul(Mul(onePlusDelta, b0), b1), Square(ch.lookupSep))
  }

  /** The second coefficient of z2: l1 * sep^3. */
  function Z2CoeffD(l1Eval: Fe, ch: Challenges): Fe {
    Mul(l1Eval, Mul(ch.lookupSep, Square(ch.lookupSep)))
  }

  /** The coefficient of h1: -z2_next sep^2 (epsilon (1 + delta) + h2 + delta h1). */
  function H1Coeff(e: ProofEvaluations, ch: Challenges): Fe {
    var l := e.lookupEvals;
    var c0 := Mul(Neg(l.z2NextEval), Square(ch.lookupSep));
    var c1 := Add(Add(Mul(ch.epsilon, Add(ch.delta, 1)), l.h2Eval), Mul(ch.delta, l.h1Eval));
    Mul(c0, c1)
  }

  /** `compute_linearisation`: q_lookup, z2, h1 and z2 again, each scaled by
      its coefficient, added. */
  function ComputeLinearisation(pk: ProverKey, l1Eval: Fe, e: ProofEvaluations, ch: Challenges,
                                z2Poly: Poly, h1Poly: Poly): Poly
  {
    var a := PolyScale(pk.qLookup.poly, QLookupCoeff(e, ch));
    var b := PolyScale(z2Poly, Z2CoeffB(e, ch));
    var c := PolyScale(h1Poly, H1Coeff(e, ch));
    var d := PolyScale(z2Poly, Z2CoeffD(l1Eval, ch));
    PolyAdd(PolyAdd(PolyAdd(a, b), c), d)
  }

  /** Evaluating the linearisation polynomial at `x` combines the three
      polynomials' values with their coefficients, z2 taking both of its. */
  lemma LinearisationEval(pk: ProverKey, l1Eval: Fe, e: ProofEvaluations, ch: Challenges,
                          z2Poly: Poly, h1Poly: Poly, x: Fe)
    ensures Eval(ComputeLinearisation(pk, l1Eval, e, ch, z2Poly, h1Poly), x)
         == Add(Mul(Eval(pk.qLookup.poly, x), QLookupCoeff(e, ch)),
                Add(Mul(Eval(z2Poly, x), Add(Z2CoeffB(e, ch), Z2CoeffD(l1Eval, ch))),
                    Mul(Eval(h1Poly, x), H1Coeff(e, ch))))
  {
    var sa, sb, sc, sd := QLookupCoeff(e, ch), Z2CoeffB(e, ch), H1Coeff(e, ch), Z2CoeffD(l1Eval, ch);
    var a, b := PolyScale(pk.qLookup.poly, sa), PolyScale(z2Poly, sb);
    var c, d := PolyScale(h1Poly, sc), PolyScale(z2Poly, sd);
    EvalScale(pk.qLookup.poly, sa, x);
    EvalScale(z2Poly, sb, x);
    EvalScale(h1Poly, sc, x);
    EvalScale(z2Poly, sd, x);
    EvalAdd(a, b, x);
    EvalAdd(PolyAdd(a, b), c, x);
    EvalAdd(PolyAdd(PolyAdd(a, b), c), d, x);
    var ea, eb, ec, ed := Eval(a, x), Eval(b, x), Eval(c, x), Eval(d, x);
    // ((ea + eb) + ec) + ed == ea + ((eb + ed) + ec)
    AddAssoc(ea, eb, ec);
    AddAssoc(ea, Add(eb, ec), ed);
    AddRightComm(eb, ec, ed);
    Distrib(Eval(z2Poly, x), sb, sd);
  }

  // ---------------------------------------------------------------------------
  // Verifier

  /** The verifier's scalar for the lookup selector:
      (a - f + zeta b + zeta^2 c + zeta^3 d) * sep. */
  function VerifierQLookupScalar(e: ProofEvaluations, ch: Challenges): Fe {
    var w, z := e.wireEvals, ch.zeta;
    var f0 := Add(Add(Add(Sub(w.aEval, e.lookupEvals.fEval), Mul(z, w.bEval)),
                      Mul(Mul(z, z), w.cEval)),
                  Mul(Mul(Mul(z, z), z), w.dEval));
    Mul(f0, ch.lookupSep)
  }

  /** The verifier's scalar for z2:
      (1 + delta) (epsilon + f) (epsilon (1 + delta) + t + delta t_next) sep^2 + l1 sep^3. */
  function VerifierZ2Scalar(e: ProofEvaluations, ch: Challenges, l1Eval: Fe): Fe {
    var l := e.lookupEvals;
    var onePlusDelta := Add(1, ch.delta);
    var epsOnePlusDelta := Mul(ch.epsilon, onePlusDelta);
    var sepSq := Square(ch.lookupSep);
    var sepCu := Mul(sepSq, ch.lookupSep);
    var z0 := Add(ch.epsilon, l.fEval);
    var z1 := Add(Add(epsOnePlusDelta, l.tableEval), Mul(ch.delta, l.tableNextEval));
    var z2 := Mul(l1Eval, sepCu);
    Add(Mul(Mul(Mul(onePlusDelta, z0), z1), sepSq), z2)
  }

  /** The verifier's scalar for h1 as the source computes it: the factor is
      -z2_next * sep^3, where the prover's coefficient has sep^2. */
  function VerifierH1ScalarAsWritten(e: ProofEvaluations, ch: Challenges): Fe {
    var l := e.lookupEvals;
    var epsOnePlusDelta := Mul(ch.epsilon, Add(1, ch.delta));
    var sepCu := Mul(Square(ch.lookupSep), ch.lookupSep);
    var w0 := Mul(Neg(l.z2NextEval), sepCu);
    var w1 := Add(Add(epsOnePlusDelta, l.h2Eval), Mul(ch.delta, l.h1Eval));
    Mul(w0, w1)
  }

  /** The verifier's scalar for h1 with the factor -z2_next * sep^2 that the
      prover's linearisation and quotient use. */
  function VerifierH1Scalar(e: ProofEvaluations, ch: Challenges): Fe {
    var l := e.lookupEvals;
    var epsOnePlusDelta := Mul(ch.epsilon, Add(1, ch.delta));
    var w0 := Mul(Neg(l.z2NextEval), Square(ch.lookupSep));
    var w1 := Add(Add(epsOnePlusDelta, l.h2Eval), Mul(ch.delta, l.h1Eval));
    Mul(w0, w1)
  }

  /** The scalars the verifier pushes, in push order, with the h1 scalar as
      the source computes it. */
  function LinearisationScalars(e: ProofEvaluations, ch: Challenges, l1Eval: Fe): seq<Fe> {
    [VerifierQLookupScalar(e, ch), VerifierZ2Scalar(e, ch, l1Eval), VerifierH1ScalarAsWritten(e, ch)]
  }

  /** The scalars with the h1 factor the prover uses. */
  function IntendedLinearisationScalars(e: ProofEvaluations, ch: Challenges, l1Eval: Fe): seq<Fe> {
    [VerifierQLookupScalar(e, ch), VerifierZ2Scalar(e, ch, l1Eval), VerifierH1Scalar(e, ch)]
  }

  /** `compute_linearisation_commitment`: pushes the lookup selector, z2 and
      h1 commitments with their scalars onto the verifier's vectors. */
  method ComputeLinearisationCommitment(vk: VerifierKey, scalars: seq<Fe>, points: seq<Point>,
                                        e: ProofEvaluations, ch: Challenges, l1Eval: Fe,
                                        z2Comm: Point, h1Comm: Point)
    returns (scalars': seq<Fe>, points': seq<Point>)
    ensures scalars' == scalars + LinearisationScalars(e, ch, l1Eval)
    ensures points' == points + [vk.qLookup, z2Comm, h1Comm]
  {
    scalars', points' := scalars, points;
    var f := VerifierQLookupScalar(e, ch);
    scalars' := scalars' + [f];
    points' := points' + [vk.qLookup];
    var z := VerifierZ2Scalar(e, ch, l1Eval);
    scalars' := scalars' + [z];
    points' := points' + [z2Comm];
    var w := VerifierH1ScalarAsWritten(e, ch);
    scalars' := scalars' + [w];
    points' := points' + [h1Comm];
  }

  /** The verifier's lookup-selector scalar is the prover's coefficient. */
  lemma QLookupScalarAgrees(e: ProofEvaluations, ch: Challenges)
    ensures VerifierQLookupScalar(e, ch) == QLookupCoeff(e, ch)
  {
    var w, z, f := e.wireEvals, ch.zeta, e.lookupEvals.fEval;
    var x1, x2, x3 := Mul(z, w.bEval), Mul(Mul(z, z), w.cEval), Mul(Mul(Mul(z, z), z), w.dEval);
    var nf := Neg(f);
    // a - f + x1 + x2 + x3 == (a + x1 + x2 + x3) - f
    SubIsAddNeg(w.aEval, f);
    AddRightComm(w.aEval, nf, x1);
    AddRightComm(Add(w.aEval, x1), nf, x2);
    AddRightComm(Add(Add(w.aEval, x1), x2), nf, x3);
    SubIsAddNeg(Add(Add(Add(w.aEval, x1), x2), x3), f);
  }

  /** The verifier's z2 scalar is the sum of the prover's two z2
      coefficients. */
  lemma Z2ScalarAgrees(e: ProofEvaluations, ch: Challenges, l1Eval: Fe)
    ensures VerifierZ2Scalar(e, ch, l1Eval) == Add(Z2CoeffB(e, ch), Z2CoeffD(l1Eval, ch))
  {
    AddComm(1, ch.delta);
    MulComm(Square(ch.lookupSep), ch.lookupSep);
  }

  /** With the sep^2 factor the verifier's h1 scalar is the prover's h1
      coefficient. */
  lemma H1ScalarAgrees(e: ProofEvaluations, ch: Challenges)
    ensures VerifierH1Scalar(e, ch) == H1Coeff(e, ch)
  {
    AddComm(1, ch.delta);
  }

  /** The source's h1 scalar differs from the prover's coefficient: with
      sep = 2, z2_next = 1, epsilon = 1, delta = 0 and h1 = h2 = 0 it is -8
      where the prover has -4. */
  lemma H1ScalarAsWrittenDisagrees()
    ensures var e := ProofEvaluations(WireEvaluations(0, 0, 0, 0), LookupEvaluations(0, 0, 0, 0, 0, 1));
            var ch := Challenges(0, 1, 0, 2);
            VerifierH1ScalarAsWritten(e, ch) != H1Coeff(e, ch)
  {
    var e := ProofEvaluations(WireEvaluations(0, 0, 0, 0), LookupEvaluations(0, 0, 0, 0, 0, 1));
    var ch := Challenges(0, 1, 0, 2);
    // Every value below P is its own residue; P is an odd prime above 3, so
    // -8 and -4 differ modulo P.
    assert P % 2 != 0 by { assert 1 < 2 < P; }
    ModNear(1); ModNear(2); ModNear(4); ModNear(P - 1);
    assert Add(1, 0) == 1 && Mul(1, 1) == 1 && Mul(0, 0) == 0;
    assert Add(Add(1, 0), 0) == 1;
    var m1 := Neg(1);
    assert m1 == P - 1;
    var sq := Square(2);
    assert sq == 4 % P;
    if P == 5 {
      assert sq == 4;
      assert Mul(sq, 2) == 3;
      assert Mul(m1, 3) == 2 && Mul(m1, 4) == 1;
      assert Mul(2, 1) == 2 && Mul(1, 1) == 1;
    } else if P == 7 {
      assert sq == 4;
      assert Mul(sq, 2) == 1;
      assert Mul(m1, 1) == 6 && Mul(m1, 4) == 3;
      assert Mul(6, 1) == 6 && Mul(3, 1) == 3;
    } else {
      assert P > 8;
      ModNear(8);
      assert sq == 4 && Mul(sq, 2) == 8;
      ModNear((P - 1) * 8 - 7 * P);
      ModUnique((P - 1) * 8, 7, P - 8);
      ModUnique((P - 1) * 4, 3, P - 4);
      assert Mul(m1, 8) == P - 8 && Mul(m1, 4) == P - 4;
      ModNear(P - 8); ModNear(P - 4);
      assert Mul(P - 8, 1) == P - 8 && Mul(P - 4, 1) == P - 4;
    }
  }

  /** Commitments to the three polynomials under the setup secret `tau`. */
  ghost predicate CommitsTo(vk: VerifierKey, pk: ProverKey, tau: Fe, z2Comm: Point, z2Poly: Poly,
                            h1Comm: Point, h1Poly: Poly)
  {
    vk.qLookup == Commit(tau, pk.qLookup.poly) &&
    z2Comm == Commit(tau, z2Poly) && h1Comm == Commit(tau, h1Poly)
  }

  /** With the intended h1 scalar, the verifier's three pairs combine to the
      commitment of the prover's linearisation polynomial. */
  lemma VerifierMatchesProver(pk: ProverKey, vk: VerifierKey, tau: Fe, l1Eval: Fe,
                              e: ProofEvaluations, ch: Challenges,
                              z2Comm: Point, z2Poly: Poly, h1Comm: Point, h1Poly: Poly)
    requires CommitsTo(vk, pk, tau, z2Comm, z2Poly, h1Comm, h1Poly)
    ensures Msm(IntendedLinearisationScalars(e, ch, l1Eval), [vk.qLookup, z2Comm, h1Comm])
         == Commit(tau, ComputeLinearisation(pk, l1Eval, e, ch, z2Poly, h1Poly))
  {
    LinearisationEval(pk, l1Eval, e, ch, z2Poly, h1Poly, tau);
    QLookupScalarAgrees(e, ch);
    Z2ScalarAgrees(e, ch, l1Eval);
    H1ScalarAgrees(e, ch);
    var ss, ps := IntendedLinearisationScalars(e, ch, l1Eval), [vk.qLookup, z2Comm, h1Comm];
    var t3 := Mul(Eval(h1Poly, tau), H1Coeff(e, ch));
    AddZero(t3);
    assert Msm(ss[2..], ps[2..]).log == t3;
    assert Msm(ss[1..], ps[1..]).log
        == Add(Mul(Eval(z2Poly, tau), Add(Z2CoeffB(e, ch), Z2CoeffD(l1Eval, ch))), t3);
  }

  /** The pairs the source's verifier pushes combine to the commitment of the
      prover's linearisation polynomial exactly when h1 vanishes at the setup
      secret or the as-written h1 scalar happens to equal the prover's
      coefficient. */
  lemma AsWrittenMatchesProverIff(pk: ProverKey, vk: VerifierKey, tau: Fe, l1Eval: Fe,
                                  e: ProofEvaluations, ch: Challenges,
                                  z2Comm: Point, z2Poly: Poly, h1Comm: Point, h1Poly: Poly)
    requires CommitsTo(vk, pk, tau, z2Comm, z2Poly, h1Comm, h1Poly)
    ensures Msm(LinearisationScalars(e, ch, l1Eval), [vk.qLookup, z2Comm, h1Comm])
              == Commit(tau, ComputeLinearisation(pk, l1Eval, e, ch, z2Poly, h1Poly))
        <==> Eval(h1Poly, tau) == 0 || VerifierH1ScalarAsWritten(e, ch) == H1Coeff(e, ch)
  {
    VerifierMatchesProver(pk, vk, tau, l1Eval, e, ch, z2Comm, z2Poly, h1Comm, h1Poly);
    H1ScalarAgrees(e, ch);
    var ps := [vk.qLookup, z2Comm, h1Comm];
    var h := h1Comm.log;
    var sa, si := VerifierH1ScalarAsWritten(e, ch), VerifierH1Scalar(e, ch);
    var x0 := Mul(vk.qLookup.log, VerifierQLookupScalar(e, ch));
    var y0 := Mul(z2Comm.log, VerifierZ2Scalar(e, ch, l1Eval));
    AddZero(Mul(h, sa));
    AddZero(Mul(h, si));
    assert Msm(LinearisationScalars(e, ch, l1Eval), ps).log == Add(x0, Add(y0, Mul(h, sa))) by {
      assert Msm(LinearisationScalars(e, ch, l1Eval)[2..], ps[2..]).log == Mul(h, sa);
    }
    assert Msm(IntendedLinearisationScalars(e, ch, l1Eval), ps).log == Add(x0, Add(y0, Mul(h, si))) by {
      assert Msm(IntendedLinearisationScalars(e, ch, l1Eval)[2..], ps[2..]).log == Mul(h, si);
    }
    if Add(x0, Add(y0, Mul(h, sa))) == Add(x0, Add(y0, Mul(h, si))) {
      AddCancelLeft(x0, Add(y0, Mul(h, sa)), Add(y0, Mul(h, si)));
      AddCancelLeft(y0, Mul(h, sa), Mul(h, si));
      if h != 0 {
        MulCancelLeft(h, sa, si);
      }
    }
    MulZero(sa);
    MulZero(si);
  }

  /** On the input of `H1ScalarAsWrittenDisagrees`, with h1 the constant
      polynomial 1, the pairs the source's verifier pushes do not combine to
      the commitment of the prover's linearisation polynomial. */
  lemma AsWrittenMismatch(pk: ProverKey, vk: VerifierKey, tau: Fe, l1Eval: Fe,
                          z2Comm: Point, z2Poly: Poly, h1Comm: Point)
    requires CommitsTo(vk, pk, tau, z2Comm, z2Poly, h1Comm, [1])
    ensures var e := ProofEvaluations(WireEvaluations(0, 0, 0, 0), LookupEvaluations(0, 0, 0, 0, 0, 1));
            var ch := Challenges(0, 1, 0, 2);
            Msm(LinearisationScalars(e, ch, l1Eval), [vk.qLookup, z2Comm, h1Comm])
              != Commit(tau, ComputeLinearisation(pk, l1Eval, e, ch, z2Poly, [1]))
  {
    var e := ProofEvaluations(WireEvaluations(0, 0, 0, 0), LookupEvaluations(0, 0, 0, 0, 0, 1));
    var ch := Challenges(0, 1, 0, 2);
    H1ScalarAsWrittenDisagrees();
    assert Eval([1], tau) == 1 by {
      MulZero(tau);
      AddZero(1);
    }
    AsWrittenMatchesProverIff(pk, vk, tau, l1Eval, e, ch, z2Comm, z2Poly, h1Comm, [1]);
  }
}
