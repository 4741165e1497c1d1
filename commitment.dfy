/** Commitments. The pairing group G1 has prime order P, so it is modelled as
    the cyclic group generated by a fixed G, each element given by its discrete
    logarithm. A KZG commitment to a polynomial p under the setup secret tau is
    [p(tau)]G; curve arithmetic itself is not modelled. */
module Commitment {
  import opened Field
  import opened Poly

  /** The group element [log]G. */
  datatype Point = Point(log: Fe)

  const Identity: Point := Point(0)

  function PointAdd(g: Point, h: Point): Point { Point(Add(g.log, h.log)) }

  /** Scalar multiplication `g.mul(s)`. */
  function PointScale(g: Point, s: Fe): Point { Point(Mul(g.log, s)) }

  /** The KZG commitment to `p` for the trusted-setup secret `tau`. */
  function Commit(tau: Fe, p: Poly): Point { Point(Eval(p, tau)) }

  /** Multi-scalar multiplication over the zipped (scalar, point) pairs: the
      combination the verifier forms from the `scalars`/`points` vectors. */
  function Msm(scalars: seq<Fe>, points: seq<Point>): Point {
    if scalars == [] || points == [] then Identity
    else PointAdd(PointScale(points[0], scalars[0]), Msm(scalars[1..], points[1..]))
  }

  /** Committing is linear: the commitment to a sum of scaled polynomials is
      the same combination of their commitments. */
  lemma CommitAddScale(tau: Fe, p: Poly, a: Fe, q: Poly, b: Fe)
    ensures Commit(tau, PolyAdd(PolyScale(p, a), PolyScale(q, b)))
         == PointAdd(PointScale(Commit(tau, p), a), PointScale(Commit(tau, q), b))
  {
    EvalAdd(PolyScale(p, a), PolyScale(q, b), tau);
    EvalScale(p, a, tau);
    EvalScale(q, b, tau);
  }

  /** Appending pairs to equally long vectors adds their combination. */
  lemma {:induction false} MsmAppend(s1: seq<Fe>, p1: seq<Point>, s2: seq<Fe>, p2: seq<Point>)
    requires |s1| == |p1|
    ensures Msm(s1 + s2, p1 + p2) == PointAdd(Msm(s1, p1), Msm(s2, p2))
  {
    if s1 == [] {
      assert s1 + s2 == s2 && p1 + p2 == p2;
      AddZero(Msm(s2, p2).log);
    } else {
      assert (s1 + s2)[1..] == s1[1..] + s2;
      assert (p1 + p2)[1..] == p1[1..] + p2;
      MsmAppend(s1[1..], p1[1..], s2, p2);
      AddAssoc(Mul(p1[0].log, s1[0]), Msm(s1[1..], p1[1..]).log, Msm(s2, p2).log);
    }
  }
}
