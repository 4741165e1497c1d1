/** KZG aggregate proofs: evaluations and commitments of several polynomials
    at one point, flattened into a single opening proof by a random linear
    combination with powers of a transcript challenge. */
module KzgProof {
  import opened Field
  import opened Poly
  import opened Commitment

  /** `KZGProof`: an opening of one committed polynomial at a point. */
  datatype Proof = Proof(commitmentToWitness: Point, evaluatedPoint: Fe, commitmentToPolynomial: Point)

  /** `powers_of(c, n - 1)`: the first `n` powers 1, c, c^2, ... of `c`. */
  function Powers(c: Fe, n: nat): (r: seq<Fe>)
    ensures |r| == n
  {
    PowersFrom(c, 0, n)
  }

  /** The `n` consecutive powers of `c` starting at `c^j`. */
  function PowersFrom(c: Fe, j: nat, n: nat): (r: seq<Fe>)
    ensures |r| == n
    ensures forall i :: 0 <= i < n ==> r[i] == Pow(c, i + j)
  {
    seq<Fe>(n, i requires 0 <= i < n => Pow(c, i + j))
  }

  /** The zip/map/sum over (value, power) pairs, stopping at the shorter
      sequence; each pair contributes `power * value`. */
  function Dot(powers: seq<Fe>, values: seq<Fe>): Fe {
    if powers == [] || values == [] then 0
    else Add(Mul(powers[0], values[0]), Dot(powers[1..], values[1..]))
  }

  /** The discrete logarithms of a sequence of points. */
  function Logs(points: seq<Point>): (r: seq<Fe>)
    ensures |r| == |points|
    ensures forall i :: 0 <= i < |points| ==> r[i] == points[i].log
  {
    if points == [] then [] else [points[0].log] + Logs(points[1..])
  }

  /** The values of the polynomials `ps` at `x`. */
  function EvalAll(ps: seq<Poly>, x: Fe): (r: seq<Fe>)
    ensures |r| == |ps|
    ensures forall i :: 0 <= i < |ps| ==> r[i] == Eval(ps[i], x)
  {
    if ps == [] then [] else [Eval(ps[0], x)] + EvalAll(ps[1..], x)
  }

  /** The polynomial sum of `ps[i] * scalars[i]` over the zipped pairs. */
  function Combine(ps: seq<Poly>, scalars: seq<Fe>): Poly {
    if ps == [] || scalars == [] then []
    else PolyAdd(PolyScale(ps[0], scalars[0]), Combine(ps[1..], scalars[1..]))
  }

  /** `KZGAggregateProof`: the witness commitment and, in lockstep, the
      evaluated points and the commitments to the polynomials. */
  class AggregateProof {
    var commitmentToWitness: Point
    var evaluatedPoints: seq<Fe>
    var commitmentsToPolynomials: seq<Point>

    /** Both part lists have the same length. */
    ghost predicate Valid()
      reads this
    {
      |evaluatedPoints| == |commitmentsToPolynomials|
    }

    /** `with_witness`: the witness commitment and no parts yet. */
    constructor WithWitness(witnessComm: Point)
      ensures commitmentToWitness == witnessComm
      ensures evaluatedPoints == [] && commitmentsToPolynomials == []
      ensures Valid()
    {
      commitmentToWitness := witnessComm;
      evaluatedPoints := [];
      commitmentsToPolynomials := [];
    }

    /** `add_part`: one evaluation and the commitment that produced it,
        appended to their lists. */
    method AddPart(eval: Fe, comm: Point)
      modifies this
      ensures evaluatedPoints == old(evaluatedPoints) + [eval]
      ensures commitmentsToPolynomials == old(commitmentsToPolynomials) + [comm]
      ensures commitmentToWitness == old(commitmentToWitness)
      ensures old(Valid()) ==> Valid()
    {
      evaluatedPoints := evaluatedPoints + [eval];
      commitmentsToPolynomials := commitmentsToPolynomials + [comm];
    }

    /** `flatten`: both lists weighted by the powers of `challenge` (the
        transcript's "aggregate_witness" challenge) and summed; there are as
        many powers as commitments, since `len - 1` must not underflow. */
    function Flatten(challenge: Fe): (r: Proof)
      reads this
      requires |commitmentsToPolynomials| > 0
      ensures r.commitmentToWitness == commitmentToWitness
    {
      var powers := Powers(challenge, (|commitmentsToPolynomials| - 1) + 1);
      Proof(commitmentToWitness, Dot(powers, evaluatedPoints), Msm(powers, commitmentsToPolynomials))
    }
  }

  /** Weighting by consecutive powers of `c` starting at `c^j` is `c^j` times
      Horner evaluation at `c`. */
  lemma {:induction false} DotShiftedPowers(c: Fe, j: nat, e: seq<Fe>)
    ensures Dot(PowersFrom(c, j, |e|), e) == Mul(Pow(c, j), Eval(e, c))
    decreases |e|
  {
    var ps := PowersFrom(c, j, |e|);
    if e == [] {
      MulZero(Pow(c, j));
    } else {
      assert ps[1..] == PowersFrom(c, j + 1, |e[1..]|);
      DotShiftedPowers(c, j + 1, e[1..]);
      var pj, tail := Pow(c, j), Eval(e[1..], c);
      assert ps[0] == pj;
      // c^(j+1) * tail == c^j * (c * tail)
      MulAssoc(c, pj, tail);
      MulComm(c, pj);
      MulAssoc(pj, c, tail);
      Distrib(pj, e[0], Mul(c, tail));
    }
  }

  /** Weighting by 1, c, c^2, ... is evaluating the values as polynomial
      coefficients at `c`. */
  lemma DotPowersIsEval(c: Fe, e: seq<Fe>)
    ensures Dot(Powers(c, |e|), e) == Eval(e, c)
  {
    DotShiftedPowers(c, 0, e);
    MulComm(1, Eval(e, c));
    MulOne(Eval(e, c));
  }

  /** A multi-scalar multiplication is the weighted sum of the points'
      logarithms. */
  lemma {:induction false} MsmIsDot(scalars: seq<Fe>, points: seq<Point>)
    ensures Msm(scalars, points).log == Dot(scalars, Logs(points))
  {
    if scalars != [] && points != [] {
      assert Logs(points)[1..] == Logs(points[1..]);
      MsmIsDot(scalars[1..], points[1..]);
      MulComm(points[0].log, scalars[0]);
    }
  }

  /** Evaluating a combination of polynomials is combining their values. */
  lemma {:induction false} EvalCombine(ps: seq<Poly>, scalars: seq<Fe>, x: Fe)
    ensures Eval(Combine(ps, scalars), x) == Dot(scalars, EvalAll(ps, x))
  {
    if ps != [] && scalars != [] {
      assert EvalAll(ps, x)[1..] == EvalAll(ps[1..], x);
      EvalCombine(ps[1..], scalars[1..], x);
      EvalAdd(PolyScale(ps[0], scalars[0]), Combine(ps[1..], scalars[1..]), x);
      EvalScale(ps[0], scalars[0], x);
      MulComm(Eval(ps[0], x), scalars[0]);
    }
  }

  /** The flattened evaluation is the evaluations, read as coefficients,
      evaluated at the challenge. */
  lemma FlattenedPointIsHorner(proof: AggregateProof, c: Fe)
    requires |proof.commitmentsToPolynomials| > 0 && proof.Valid()
    ensures proof.Flatten(c).evaluatedPoint == Eval(proof.evaluatedPoints, c)
  {
    DotPowersIsEval(c, proof.evaluatedPoints);
  }

  /** The flattened commitment is the commitment whose logarithm is the
      commitments' logarithms evaluated at the challenge. */
  lemma FlattenedCommitmentIsHorner(proof: AggregateProof, c: Fe)
    requires |proof.commitmentsToPolynomials| > 0
    ensures proof.Flatten(c).commitmentToPolynomial.log == Eval(Logs(proof.commitmentsToPolynomials), c)
  {
    var comms := proof.commitmentsToPolynomials;
    MsmIsDot(Powers(c, |comms|), comms);
    DotPowersIsEval(c, Logs(comms));
  }

  /** When every part is the commitment to `ps[i]` and its value at `z`, the
      flattened proof opens the single polynomial sum of c^i * ps[i]: its
      commitment is that polynomial's commitment and its evaluated point is
      that polynomial's value at `z`. */
  lemma FlattenOpensCombination(proof: AggregateProof, c: Fe, ps: seq<Poly>, tau: Fe, z: Fe)
    requires |proof.commitmentsToPolynomials| > 0 && proof.Valid()
    requires |ps| == |proof.commitmentsToPolynomials|
    requires forall i :: 0 <= i < |ps| ==> proof.commitmentsToPolynomials[i] == Commit(tau, ps[i])
    requires forall i :: 0 <= i < |ps| ==> proof.evaluatedPoints[i] == Eval(ps[i], z)
    ensures var q := Combine(ps, Powers(c, |ps|));
            proof.Flatten(c) == Proof(proof.commitmentToWitness, Eval(q, z), Commit(tau, q))
  {
    var powers := Powers(c, |ps|);
    var comms := proof.commitmentsToPolynomials;
    assert Logs(comms) == EvalAll(ps, tau);
    assert proof.evaluatedPoints == EvalAll(ps, z);
    MsmIsDot(powers, comms);
    EvalCombine(ps, powers, tau);
    EvalCombine(ps, powers, z);
  }

  /** With a single part, flattening returns that part unchanged. */
  lemma FlattenSinglePart(proof: AggregateProof, c: Fe)
    requires |proof.commitmentsToPolynomials| == 1 && proof.Valid()
    ensures proof.Flatten(c).evaluatedPoint == proof.evaluatedPoints[0]
    ensures proof.Flatten(c).commitmentToPolynomial == proof.commitmentsToPolynomials[0]
  {
    var e, g := proof.evaluatedPoints[0], proof.commitmentsToPolynomials[0];
    var powers := Powers(c, 1);
    assert powers == [1];
    assert Dot(powers, proof.evaluatedPoints) == Add(Mul(1, e), 0) by {
      assert proof.evaluatedPoints[1..] == [];
    }
    assert Msm(powers, proof.commitmentsToPolynomials) == Point(Add(Mul(g.log, 1), 0)) by {
      assert proof.commitmentsToPolynomials[1..] == [];
    }
    MulComm(1, e);
    MulOne(e);
    MulOne(g.log);
    AddZero(e);
    AddZero(g.log);
  }
}
