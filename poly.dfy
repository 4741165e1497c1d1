/** Dense univariate polynomials over the scalar field, as coefficient
    sequences (lowest degree first), and the operations the widgets use on
    them: addition, scaling by a field element and evaluation. */
module Poly {
  import opened Field

  type Poly = seq<Fe>

  /** Coefficient `i`, reading missing high coefficients as zero. */
  function Coeff(p: Poly, i: nat): Fe {
    if i < |p| then p[i] else 0
  }

  /** Horner evaluation of `p` at `x`. */
  function Eval(p: Poly, x: Fe): Fe {
    if |p| == 0 then 0 else Add(p[0], Mul(x, Eval(p[1..], x)))
  }

  /** `&p + &q`: coefficient-wise sum, the shorter operand padded with zeros. */
  function PolyAdd(p: Poly, q: Poly): (r: Poly)
    ensures |r| == if |p| < |q| then |q| else |p|
    ensures forall i :: 0 <= i < |r| ==> r[i] == Add(Coeff(p, i), Coeff(q, i))
  {
    if p == [] then
      AddZeroAll(q);
      q
    else if q == [] then
      AddZeroAll(p);
      p
    else
      [Add(p[0], q[0])] + PolyAdd(p[1..], q[1..])
  }

  /** `&p * c`: every coefficient multiplied by the scalar `c`. */
  function PolyScale(p: Poly, c: Fe): (r: Poly)
    ensures |r| == |p|
    ensures forall i :: 0 <= i < |p| ==> r[i] == Mul(p[i], c)
  {
    if p == [] then [] else [Mul(p[0], c)] + PolyScale(p[1..], c)
  }

  lemma AddZeroAll(q: Poly)
    ensures forall i :: 0 <= i < |q| ==> q[i] == Add(Coeff([], i), Coeff(q, i))
  {
  }

  /** Evaluation is additive. */
  lemma {:induction false} EvalAdd(p: Poly, q: Poly, x: Fe)
    ensures Eval(PolyAdd(p, q), x) == Add(Eval(p, x), Eval(q, x))
  {
    if p == [] {
      AddZero(Eval(q, x));
    } else if q == [] {
      AddZero(Eval(p, x));
    } else {
      var r := PolyAdd(p, q);
      assert r[1..] == PolyAdd(p[1..], q[1..]);
      EvalAdd(p[1..], q[1..], x);
      var ep, eq := Eval(p[1..], x), Eval(q[1..], x);
      Distrib(x, ep, eq);
      AddSwap(p[0], q[0], Mul(x, ep), Mul(x, eq));
    }
  }

  /** Evaluation commutes with scaling. */
  lemma {:induction false} EvalScale(p: Poly, c: Fe, x: Fe)
    ensures Eval(PolyScale(p, c), x) == Mul(Eval(p, x), c)
  {
    if p != [] {
      var r := PolyScale(p, c);
      assert r[1..] == PolyScale(p[1..], c);
      EvalScale(p[1..], c, x);
      var e := Eval(p[1..], x);
      DistribRight(p[0], Mul(x, e), c);
      MulAssoc(x, e, c);
    }
  }
}
