/** The arithmetic gate widget: the width-4 gate
    q_arith * (q_m*a*b + q_l*a + q_r*b + q_o*c + q_4*d + q_c)
    as the prover's quotient contribution at a domain point, the prover's
    linearisation polynomial, and the verifier's (scalar, commitment) pairs. */
module ArithmeticWidget {
  import opened Field
  import opened Poly
  import opened Commitment

  /** A selector polynomial together with its evaluations over the domain. */
  datatype Selector = Selector(poly: Poly, evals: seq<Fe>)

  datatype ProverKey = ProverKey(
    qM: Selector, qL: Selector, qR: Selector, qO: Selector,
    q4: Selector, qC: Selector, qArith: Selector)

  /** Commitments to the selector polynomials. */
  datatype VerifierKey = VerifierKey(
    qM: Point, qL: Point, qR: Point, qO: Point,
    q4: Point, qC: Point, qArith: Point)

  /** The evaluations at the challenge point that this widget reads. */
  datatype ProofEvaluations = ProofEvaluations(
    aEval: Fe, bEval: Fe, cEval: Fe, dEval: Fe, qArithEval: Fe)

  /** The gate expression for one row, with the operations grouped as the
      source writes them. */
  function Gate(qM: Fe, qL: Fe, qR: Fe, qO: Fe, q4: Fe, qC: Fe, qArith: Fe,
                a: Fe, b: Fe, c: Fe, d: Fe): Fe
  {
    Mul(Add(Add(Add(Add(Add(Mul(Mul(a, b), qM), Mul(a, qL)), Mul(b, qR)),
                    Mul(c, qO)), Mul(d, q4)), qC), qArith)
  }

  ghost predicate IndexInDomain(pk: ProverKey, index: nat) {
    index < |pk.qM.evals| && index < |pk.qL.evals| && index < |pk.qR.evals| &&
    index < |pk.qO.evals| && index < |pk.q4.evals| && index < |pk.qC.evals| &&
    index < |pk.qArith.evals|
  }

  /** The gate's contribution to the quotient at domain point `index`; it
      vanishes on every row whose arithmetic selector is off. */
  function ComputeQuotientI(pk: ProverKey, index: nat, wL: Fe, wR: Fe, wO: Fe, w4: Fe): (r: Fe)
    requires IndexInDomain(pk, index)
    ensures pk.qArith.evals[index] == 0 ==> r == 0
  {
    MulZero(Add(Add(Add(Add(Add(Mul(Mul(wL, wR), pk.qM.evals[index]), Mul(wL, pk.qL.evals[index])),
                            Mul(wR, pk.qR.evals[index])), Mul(wO, pk.qO.evals[index])),
                    Mul(w4, pk.q4.evals[index])), pk.qC.evals[index]));
    Gate(pk.qM.evals[index], pk.qL.evals[index], pk.qR.evals[index], pk.qO.evals[index],
         pk.q4.evals[index], pk.qC.evals[index], pk.qArith.evals[index], wL, wR, wO, w4)
  }

  /** The linearisation polynomial
      (q_m*(a*b) + q_l*a + q_r*b + q_o*c + q_4*d + q_c) * q_arith_eval. */
  function ComputeLinearisation(pk: ProverKey, a: Fe, b: Fe, c: Fe, d: Fe, qArithEval: Fe): Poly {
    PolyScale(
      PolyAdd(
        PolyAdd(PolyAdd(PolyAdd(PolyAdd(PolyScale(pk.qM.poly, Mul(a, b)), PolyScale(pk.qL.poly, a)),
                                PolyScale(pk.qR.poly, b)), PolyScale(pk.qO.poly, c)),
                PolyScale(pk.q4.poly, d)),
        pk.qC.poly),
      qArithEval)
  }

  /** Evaluating the linearisation polynomial at `x` gives the gate
      expression over the selector values at `x`. */
  lemma LinearisationEval(pk: ProverKey, a: Fe, b: Fe, c: Fe, d: Fe, qArithEval: Fe, x: Fe)
    ensures Eval(ComputeLinearisation(pk, a, b, c, d, qArithEval), x)
         == Mul(Add(Add(Add(Add(Add(Mul(Eval(pk.qM.poly, x), Mul(a, b)), Mul(Eval(pk.qL.poly, x), a)),
                                Mul(Eval(pk.qR.poly, x), b)), Mul(Eval(pk.qO.poly, x), c)),
                        Mul(Eval(pk.q4.poly, x), d)), Eval(pk.qC.poly, x)), qArithEval)
  {
    var m, l, r := PolyScale(pk.qM.poly, Mul(a, b)), PolyScale(pk.qL.poly, a), PolyScale(pk.qR.poly, b);
    var o, f := PolyScale(pk.qO.poly, c), PolyScale(pk.q4.poly, d);
    EvalScale(pk.qM.poly, Mul(a, b), x);
    EvalScale(pk.qL.poly, a, x);
    EvalScale(pk.qR.poly, b, x);
    EvalScale(pk.qO.poly, c, x);
    EvalScale(pk.q4.poly, d, x);
    EvalAdd(m, l, x);
    EvalAdd(PolyAdd(m, l), r, x);
    EvalAdd(PolyAdd(PolyAdd(m, l), r), o, x);
    EvalAdd(PolyAdd(PolyAdd(PolyAdd(m, l), r), o), f, x);
    var s := PolyAdd(PolyAdd(PolyAdd(PolyAdd(m, l), r), o), f);
    EvalAdd(s, pk.qC.poly, x);
    EvalScale(PolyAdd(s, pk.qC.poly), qArithEval, x);
  }

  /** The scalars the verifier pushes, in push order. */
  function LinearisationScalars(e: ProofEvaluations): seq<Fe> {
    [Mul(Mul(e.aEval, e.bEval), e.qArithEval), Mul(e.aEval, e.qArithEval),
     Mul(e.bEval, e.qArithEval), Mul(e.cEval, e.qArithEval),
     Mul(e.dEval, e.qArithEval), e.qArithEval]
  }

  /** The commitments the verifier pushes, in push order. */
  function LinearisationPoints(vk: VerifierKey): seq<Point> {
    [vk.qM, vk.qL, vk.qR, vk.qO, vk.q4, vk.qC]
  }

  /** Pushes the six (scalar, commitment) pairs onto the verifier's vectors. */
  method ComputeLinearisationCommitment(vk: VerifierKey, scalars: seq<Fe>, points: seq<Point>,
                                        e: ProofEvaluations)
    returns (scalars': seq<Fe>, points': seq<Point>)
    ensures scalars' == scalars + LinearisationScalars(e)
    ensures points' == points + LinearisationPoints(vk)
  {
    var qArithEval := e.qArithEval;
    scalars', points' := scalars, points;
    scalars' := scalars' + [Mul(Mul(e.aEval, e.bEval), qArithEval)];
    points' := points' + [vk.qM];
    scalars' := scalars' + [Mul(e.aEval, qArithEval)];
    points' := points' + [vk.qL];
    scalars' := scalars' + [Mul(e.bEval, qArithEval)];
    points' := points' + [vk.qR];
    scalars' := scalars' + [Mul(e.cEval, qArithEval)];
    points' := points' + [vk.qO];
    scalars' := scalars' + [Mul(e.dEval, qArithEval)];
    points' := points' + [vk.q4];
    scalars' := scalars' + [qArithEval];
    points' := points' + [vk.qC];
  }

  ghost predicate CommitsTo(vk: VerifierKey, pk: ProverKey, tau: Fe) {
    vk.qM == Commit(tau, pk.qM.poly) && vk.qL == Commit(tau, pk.qL.poly) &&
    vk.qR == Commit(tau, pk.qR.poly) && vk.qO == Commit(tau, pk.qO.poly) &&
    vk.q4 == Commit(tau, pk.q4.poly) && vk.qC == Commit(tau, pk.qC.poly) &&
    vk.qArith == Commit(tau, pk.qArith.poly)
  }

  /** The verifier's pairs combine to the commitment of the prover's
      linearisation polynomial, whenever the verifier key commits to the
      prover key's selectors. */
  lemma VerifierMatchesProver(pk: ProverKey, vk: VerifierKey, tau: Fe, e: ProofEvaluations)
    requires CommitsTo(vk, pk, tau)
    ensures Msm(LinearisationScalars(e), LinearisationPoints(vk))
         == Commit(tau, ComputeLinearisation(pk, e.aEval, e.bEval, e.cEval, e.dEval, e.qArithEval))
  {
    var a, b, c, d, q := e.aEval, e.bEval, e.cEval, e.dEval, e.qArithEval;
    LinearisationEval(pk, a, b, c, d, q, tau);
    var m, l, r := Eval(pk.qM.poly, tau), Eval(pk.qL.poly, tau), Eval(pk.qR.poly, tau);
    var o, f, k := Eval(pk.qO.poly, tau), Eval(pk.q4.poly, tau), Eval(pk.qC.poly, tau);
    var ab := Mul(a, b);
    // Each verifier term m * (x * q) is the prover term (m * x) scaled by q.
    MulAssoc(m, ab, q); MulAssoc(l, a, q); MulAssoc(r, b, q);
    MulAssoc(o, c, q); MulAssoc(f, d, q);
    MulComm(Mul(ab, q), m); MulComm(Mul(a, q), l); MulComm(Mul(b, q), r);
    MulComm(Mul(c, q), o); MulComm(Mul(d, q), f); MulComm(q, k);
    var t1, t2, t3, t4, t5 := Mul(m, ab), Mul(l, a), Mul(r, b), Mul(o, c), Mul(f, d);
    DistribSum6(t1, t2, t3, t4, t5, k, q);
    var ss, ps := LinearisationScalars(e), LinearisationPoints(vk);
    assert Msm(ss[5..], ps[5..]).log == Add(Mul(k, q), 0);
    assert Msm(ss[4..], ps[4..]).log == Add(Mul(f, Mul(d, q)), Msm(ss[5..], ps[5..]).log);
    assert Msm(ss[3..], ps[3..]).log == Add(Mul(o, Mul(c, q)), Msm(ss[4..], ps[4..]).log);
    assert Msm(ss[2..], ps[2..]).log == Add(Mul(r, Mul(b, q)), Msm(ss[3..], ps[3..]).log);
    assert Msm(ss[1..], ps[1..]).log == Add(Mul(l, Mul(a, q)), Msm(ss[2..], ps[2..]).log);
  }

  /** ((((t1 + t2) + t3) + t4) + t5) + t6, scaled by q, as a right-nested sum
      of scaled terms ending in zero. */
  lemma DistribSum6(t1: Fe, t2: Fe, t3: Fe, t4: Fe, t5: Fe, t6: Fe, q: Fe)
    ensures Mul(Add(Add(Add(Add(Add(t1, t2), t3), t4), t5), t6), q)
         == Add(Mul(t1, q), Add(Mul(t2, q), Add(Mul(t3, q), Add(Mul(t4, q), Add(Mul(t5, q), Add(Mul(t6, q), 0))))))
  {
    AddZero(Mul(t6, q));
    DistribRight(Add(Add(Add(Add(t1, t2), t3), t4), t5), t6, q);
    DistribRight(Add(Add(Add(t1, t2), t3), t4), t5, q);
    DistribRight(Add(Add(t1, t2), t3), t4, q);
    DistribRight(Add(t1, t2), t3, q);
    DistribRight(t1, t2, q);
    var u1, u2, u3, u4, u5, u6 := Mul(t1, q), Mul(t2, q), Mul(t3, q), Mul(t4, q), Mul(t5, q), Mul(t6, q);
    AddAssoc(Add(Add(Add(u1, u2), u3), u4), u5, u6);
    AddAssoc(Add(Add(u1, u2), u3), u4, Add(u5, u6));
    AddAssoc(Add(u1, u2), u3, Add(u4, Add(u5, u6)));
    AddAssoc(u1, u2, Add(u3, Add(u4, Add(u5, u6))));
  }
}
