/** The arithmetic-gate builders of the standard composer. Every gate appends
    one row to the four wire columns and to the eleven selector columns it
    writes, records an optional public input at the row's position, registers
    the row's wires with the permutation, and advances the gate counter `n`.
    `big_add` and `big_mul` also allocate the output witness so that the new
    row satisfies its gate equation. */
module Composer {
  import opened Field
  import opened Wrappers
  import ArithmeticWidget

  /** A witness handle: an index into the composer's witness arena. */
  type Variable = nat

  /** One call of the permutation's `add_variables_to_map(a, b, c, d, gate)`. */
  datatype PermEntry = PermEntry(a: Variable, b: Variable, c: Variable, d: Variable, gate: nat)

  /** One row across the wire columns and the selector columns the arithmetic
      gates write. */
  datatype GateRow = GateRow(
    wL: Variable, wR: Variable, wO: Variable, w4: Variable,
    qM: Fe, qL: Fe, qR: Fe, qO: Fe, q4: Fe, qC: Fe, qArith: Fe,
    qRange: Fe, qLogic: Fe, qFixedGroupAdd: Fe, qVariableGroupAdd: Fe)

  /** The output value `big_add` derives:
      q_l*a + q_r*b + q_4*d + q_c + pi. */
  function BigAddOutput(qL: Fe, a: Fe, qR: Fe, b: Fe, q4: Fe, d: Fe, qC: Fe, pi: Fe): Fe {
    Add(Add(Add(Add(Mul(qL, a), Mul(qR, b)), Mul(q4, d)), qC), pi)
  }

  /** The output value `big_mul` derives: q_m*a*b + q_4*d + q_c + pi. */
  function BigMulOutput(qM: Fe, a: Fe, b: Fe, q4: Fe, d: Fe, qC: Fe, pi: Fe): Fe {
    Add(Add(Add(Mul(Mul(qM, a), b), Mul(q4, d)), qC), pi)
  }

  /** u - (u + v + w + pi) + v + w + pi == 0 */
  lemma CancelOutput(u: Fe, v: Fe, w: Fe, pi: Fe)
    ensures Add(Add(Add(Add(u, Neg(Add(Add(Add(u, v), w), pi))), v), w), pi) == 0
  {
    var m := Neg(Add(Add(Add(u, v), w), pi));
    AddRightComm(u, m, v);
    AddRightComm(Add(u, v), m, w);
    AddRightComm(Add(Add(u, v), w), m, pi);
    AddNegSelf(Add(Add(Add(u, v), w), pi));
  }

  /** A row built by `big_add` (q_m = 0, q_o = -1, q_arith = 1) satisfies the
      arithmetic gate once its public input is added. */
  lemma BigAddRowSatisfiesGate(qL: Fe, a: Fe, qR: Fe, b: Fe, q4: Fe, d: Fe, qC: Fe, pi: Fe)
    ensures Add(ArithmeticWidget.Gate(0, qL, qR, Neg(1), q4, qC, 1, a, b,
                                      BigAddOutput(qL, a, qR, b, q4, d, qC, pi), d), pi) == 0
  {
    var c := BigAddOutput(qL, a, qR, b, q4, d, qC, pi);
    MulZero(Mul(a, b));
    AddZero(Mul(a, qL));
    MulComm(a, qL); MulComm(b, qR); MulComm(d, q4);
    MulComm(c, Neg(1));
    MulNegOne(c);
    var s := Add(Add(Add(Add(Add(Mul(Mul(a, b), 0), Mul(a, qL)), Mul(b, qR)), Mul(c, Neg(1))),
                     Mul(d, q4)), qC);
    MulOne(s);
    CancelOutput(Add(Mul(qL, a), Mul(qR, b)), Mul(q4, d), qC, pi);
  }

  /** A row built by `big_mul` (q_l = q_r = 0, q_o = -1, q_arith = 1)
      satisfies the arithmetic gate once its public input is added. */
  lemma BigMulRowSatisfiesGate(qM: Fe, a: Fe, b: Fe, q4: Fe, d: Fe, qC: Fe, pi: Fe)
    ensures Add(ArithmeticWidget.Gate(qM, 0, 0, Neg(1), q4, qC, 1, a, b,
                                      BigMulOutput(qM, a, b, q4, d, qC, pi), d), pi) == 0
  {
    var c := BigMulOutput(qM, a, b, q4, d, qC, pi);
    MulZero(a); MulZero(b);
    AddZero(Mul(Mul(a, b), qM));
    MulComm(Mul(a, b), qM);
    MulAssoc(qM, a, b);
    MulComm(d, q4);
    MulComm(c, Neg(1));
    MulNegOne(c);
    var s := Add(Add(Add(Add(Add(Mul(Mul(a, b), qM), Mul(a, 0)), Mul(b, 0)), Mul(c, Neg(1))),
                     Mul(d, q4)), qC);
    MulOne(s);
    CancelOutput(Mul(Mul(qM, a), b), Mul(q4, d), qC, pi);
  }

  /** The worked example of the source's tests: with (4+5+5) and (6+7+7)
      produced by `big_add` and 8*9 as fourth wire, `big_mul` yields 352. */
  lemma BigAddMulExample()
    requires P > 352
    ensures var fourteen := BigAddOutput(1, 4, 1, 5, 1, 5, 0, 0);
            var twenty := BigAddOutput(1, 6, 1, 7, 1, 7, 0, 0);
            BigMulOutput(1, fourteen, twenty, 8, 9, 0, 0) == 352
  {
    // Every intermediate value is below P, so no reduction happens.
    ModNear(4); ModNear(5); ModNear(9); ModNear(14);
    ModNear(6); ModNear(7); ModNear(13); ModNear(20);
    ModNear(280); ModNear(72); ModNear(352);
  }

  /** The composer's columns: the four wire columns `w_l, w_r, w_o, w_4`
      and the selector columns the arithmetic gates write. */
  datatype Columns = Columns(
    wL: seq<Variable>, wR: seq<Variable>, wO: seq<Variable>, w4: seq<Variable>,
    qM: seq<Fe>, qL: seq<Fe>, qR: seq<Fe>, qO: seq<Fe>, q4: seq<Fe>, qC: seq<Fe>,
    qArith: seq<Fe>, qRange: seq<Fe>, qLogic: seq<Fe>,
    qFixedGroupAdd: seq<Fe>, qVariableGroupAdd: seq<Fe>)
  {
    /** Every column holds exactly `n` rows. */
    predicate HasRows(n: nat) {
      |wL| == n && |wR| == n && |wO| == n && |w4| == n &&
      |qM| == n && |qL| == n && |qR| == n && |qO| == n && |q4| == n && |qC| == n &&
      |qArith| == n && |qRange| == n && |qLogic| == n &&
      |qFixedGroupAdd| == n && |qVariableGroupAdd| == n
    }

    /** Row `i` across the columns. */
    function Row(i: nat): GateRow
      requires HasRows(|wL|) && i < |wL|
    {
      GateRow(wL[i], wR[i], wO[i], w4[i], qM[i], qL[i], qR[i], qO[i], q4[i], qC[i], qArith[i],
              qRange[i], qLogic[i], qFixedGroupAdd[i], qVariableGroupAdd[i])
    }

    /** Appends `row` to every column: the new last row is `row` and the
        earlier rows are untouched. */
    function Push(row: GateRow): (r: Columns)
      requires HasRows(|wL|)
      ensures r.HasRows(|wL| + 1)
      ensures r.Row(|wL|) == row
      ensures forall i :: 0 <= i < |wL| ==> r.Row(i) == Row(i)
    {
      Columns(wL + [row.wL], wR + [row.wR], wO + [row.wO], w4 + [row.w4],
              qM + [row.qM], qL + [row.qL], qR + [row.qR], qO + [row.qO], q4 + [row.q4],
              qC + [row.qC], qArith + [row.qArith], qRange + [row.qRange], qLogic + [row.qLogic],
              qFixedGroupAdd + [row.qFixedGroupAdd], qVariableGroupAdd + [row.qVariableGroupAdd])
    }
  }

  const NoColumns := Columns([], [], [], [], [], [], [], [], [], [], [], [], [], [], [])

  /** The row `big_add_gate` pushes: q_m = 0, q_arith = 1, the other custom
      selectors 0. */
  function BigAddRow(a: Variable, b: Variable, c: Variable, d: Variable,
                     qL: Fe, qR: Fe, qO: Fe, q4: Fe, qC: Fe): GateRow
  {
    GateRow(a, b, c, d, 0, qL, qR, qO, q4, qC, 1, 0, 0, 0, 0)
  }

  /** The row `big_mul_gate` pushes: q_l = q_r = 0, q_arith = 1, the other
      custom selectors 0. */
  function BigMulRow(a: Variable, b: Variable, c: Variable, d: Variable,
                     qM: Fe, qO: Fe, qC: Fe, q4: Fe): GateRow
  {
    GateRow(a, b, c, d, qM, 0, 0, qO, q4, qC, 1, 0, 0, 0, 0)
  }

  class StandardComposer {
    /** Number of gates (rows) so far. */
    var n: nat
    var cols: Columns
    /** Public inputs by gate position. */
    var publicInputs: map<nat, Fe>
    /** The witness arena: the value of `Variable` v is `variables[v]`. */
    var variables: seq<Fe>
    /** The permutation's registrations, in call order. */
    var perm: seq<PermEntry>
    /** The pre-registered variable holding zero. */
    var zeroVar: Variable

    /** All columns have `n` rows, public inputs sit at existing rows, the
        permutation has registered every row's wires at its position, and the
        zero variable holds zero. */
    ghost predicate Valid()
      reads this
    {
      cols.HasRows(n) &&
      (forall k :: k in publicInputs ==> k < n) &&
      |perm| == n &&
      (forall i :: 0 <= i < n ==> perm[i] == PermEntry(cols.wL[i], cols.wR[i], cols.wO[i], cols.w4[i], i)) &&
      zeroVar < |variables| && variables[zeroVar] == 0
    }

    /** The public input at row `i`, zero when there is none. */
    ghost function PiAt(i: nat): Fe
      reads this
    {
      if i in publicInputs then publicInputs[i] else 0
    }

    /** Row `i`'s wires hold values for which its arithmetic gate, plus the
        row's public input, vanishes. */
    ghost predicate GateHolds(i: nat)
      reads this
      requires Valid() && i < n
    {
      var r := cols.Row(i);
      r.wL < |variables| && r.wR < |variables| && r.wO < |variables| && r.w4 < |variables| &&
      Add(ArithmeticWidget.Gate(r.qM, r.qL, r.qR, r.qO, r.q4, r.qC, r.qArith,
                                variables[r.wL], variables[r.wR], variables[r.wO], variables[r.w4]),
          PiAt(i)) == 0
    }

    /** Exactly `row` was appended to every column, `pi` (if any) was
        recorded at the old `n`, the row's wires were registered with the
        permutation there, and nothing else changed. */
    twostate predicate PushedRow(row: GateRow, pi: Option<Fe>)
      reads this
      requires old(cols.HasRows(|cols.wL|))
    {
      n == old(n) + 1 &&
      cols == old(cols).Push(row) &&
      publicInputs == (if pi.Some? then old(publicInputs)[old(n) := pi.value] else old(publicInputs)) &&
      perm == old(perm) + [PermEntry(row.wL, row.wR, row.wO, row.w4, old(n))] &&
      zeroVar == old(zeroVar)
    }

    /** An empty circuit whose witness arena holds only the zero variable. */
    constructor ()
      ensures Valid() && n == 0 && publicInputs == map[]
      ensures variables == [0] && zeroVar == 0
    {
      n := 0;
      cols := NoColumns;
      publicInputs := map[];
      variables := [0];
      perm := [];
      zeroVar := 0;
    }

    /** Allocates a new witness holding `value`. */
    method AddInput(value: Fe) returns (v: Variable)
      requires Valid()
      modifies this
      ensures Valid()
      ensures v == old(|variables|) && variables == old(variables) + [value]
      ensures n == old(n) && cols == old(cols) && publicInputs == old(publicInputs)
      ensures perm == old(perm) && zeroVar == old(zeroVar)
    {
      v := |variables|;
      variables := variables + [value];
    }

    /** Pushes `row` with public input `pi` at position `n`. The source
        asserts that no public input is recorded there yet; every public
        input sits below `n`, so that assertion cannot fail. */
    method PushRow(row: GateRow, pi: Option<Fe>)
      requires Valid()
      modifies this
      ensures Valid() && variables == old(variables)
      ensures PushedRow(row, pi)
    {
      assert n !in publicInputs;
      cols := cols.Push(row);
      if pi.Some? {
        publicInputs := publicInputs[n := pi.value];
      }
      perm := perm + [PermEntry(row.wL, row.wR, row.wO, row.w4, n)];
      n := n + 1;
    }

    /** `big_add_gate`: a width-4 addition row; an absent fourth wire is the
        zero variable. Returns `c`. */
    method BigAddGate(a: Variable, b: Variable, c: Variable, d: Option<Variable>,
                      qL': Fe, qR': Fe, qO': Fe, q4': Fe, qC': Fe, pi: Option<Fe>)
      returns (out: Variable)
      requires Valid()
      modifies this
      ensures Valid() && out == c && variables == old(variables)
      ensures PushedRow(BigAddRow(a, b, c, d.GetOr(zeroVar), qL', qR', qO', q4', qC'), pi)
    {
      PushRow(BigAddRow(a, b, c, d.GetOr(zeroVar), qL', qR', qO', q4', qC'), pi);
      out := c;
    }

    /** `big_mul_gate`: a width-4 multiplication row; an absent fourth wire
        is the zero variable. Returns `c`. */
    method BigMulGate(a: Variable, b: Variable, c: Variable, d: Option<Variable>,
                      qM': Fe, qO': Fe, qC': Fe, q4': Fe, pi: Option<Fe>)
      returns (out: Variable)
      requires Valid()
      modifies this
      ensures Valid() && out == c && variables == old(variables)
      ensures PushedRow(BigMulRow(a, b, c, d.GetOr(zeroVar), qM', qO', qC', q4'), pi)
    {
      PushRow(BigMulRow(a, b, c, d.GetOr(zeroVar), qM', qO', qC', q4'), pi);
      out := c;
    }

    /** `add_gate`: `big_add_gate` with no fourth wire and q_4 = 0. */
    method AddGate(a: Variable, b: Variable, c: Variable,
                   qL': Fe, qR': Fe, qO': Fe, qC': Fe, pi: Option<Fe>)
      returns (out: Variable)
      requires Valid()
      modifies this
      ensures Valid() && out == c && variables == old(variables)
      ensures PushedRow(BigAddRow(a, b, c, zeroVar, qL', qR', qO', 0, qC'), pi)
    {
      out := BigAddGate(a, b, c, None, qL', qR', qO', 0, qC', pi);
    }

    /** `mul_gate`: `big_mul_gate` with no fourth wire and q_4 = 0. */
    method MulGate(a: Variable, b: Variable, c: Variable,
                   qM': Fe, qO': Fe, qC': Fe, pi: Option<Fe>)
      returns (out: Variable)
      requires Valid()
      modifies this
      ensures Valid() && out == c && variables == old(variables)
      ensures PushedRow(BigMulRow(a, b, c, zeroVar, qM', qO', qC', 0), pi)
    {
      out := BigMulGate(a, b, c, None, qM', qO', qC', 0, pi);
    }

    /** `big_add`: allocates c = q_l*a + q_r*b + q_4*d + q_c + pi and adds the
        row with q_o = -1, which therefore satisfies its gate. */
    method BigAdd(qLA: (Fe, Variable), qRB: (Fe, Variable), q4D: Option<(Fe, Variable)>,
                  qC': Fe, pi: Option<Fe>)
      returns (c: Variable)
      requires Valid()
      requires qLA.1 < |variables| && qRB.1 < |variables|
      requires q4D.Some? ==> q4D.value.1 < |variables|
      modifies this
      ensures Valid()
      ensures c == old(|variables|)
      ensures variables == old(variables) + [BigAddOutput(qLA.0, old(variables)[qLA.1], qRB.0, old(variables)[qRB.1],
                                                          q4D.GetOr((0, zeroVar)).0,
                                                          old(variables[q4D.GetOr((0, zeroVar)).1]),
                                                          qC', pi.GetOr(0))]
      ensures PushedRow(BigAddRow(qLA.1, qRB.1, c, q4D.GetOr((0, zeroVar)).1, qLA.0, qRB.0, Neg(1),
                                  q4D.GetOr((0, zeroVar)).0, qC'), pi)
      ensures GateHolds(old(n))
    {
      var (q4', d) := q4D.GetOr((0, zeroVar));
      var (qL', a) := qLA;
      var (qR', b) := qRB;
      var qO' := Neg(1);
      var aEval, bEval, dEval := variables[a], variables[b], variables[d];
      var cEval := BigAddOutput(qL', aEval, qR', bEval, q4', dEval, qC', pi.GetOr(0));
      c := AddInput(cEval);
      c := BigAddGate(a, b, c, Some(d), qL', qR', qO', q4', qC', pi);
      BigAddRowSatisfiesGate(qL', aEval, qR', bEval, q4', dEval, qC', pi.GetOr(0));
    }

    /** `big_mul`: allocates c = q_m*a*b + q_4*d + q_c + pi and adds the row
        with q_o = -1, which therefore satisfies its gate. */
    method BigMul(qM': Fe, a: Variable, b: Variable, q4D: Option<(Fe, Variable)>,
                  qC': Fe, pi: Option<Fe>)
      returns (c: Variable)
      requires Valid()
      requires a < |variables| && b < |variables|
      requires q4D.Some? ==> q4D.value.1 < |variables|
      modifies this
      ensures Valid()
      ensures c == old(|variables|)
      ensures variables == old(variables) + [BigMulOutput(qM', old(variables)[a], old(variables)[b],
                                                          q4D.GetOr((0, zeroVar)).0,
                                                          old(variables[q4D.GetOr((0, zeroVar)).1]),
                                                          qC', pi.GetOr(0))]
      ensures PushedRow(BigMulRow(a, b, c, q4D.GetOr((0, zeroVar)).1, qM', Neg(1), qC',
                                  q4D.GetOr((0, zeroVar)).0), pi)
      ensures GateHolds(old(n))
    {
      var qO' := Neg(1);
      var (q4', d) := q4D.GetOr((0, zeroVar));
      var aEval, bEval, dEval := variables[a], variables[b], variables[d];
      var cEval := BigMulOutput(qM', aEval, bEval, q4', dEval, qC', pi.GetOr(0));
      c := AddInput(cEval);
      c := BigMulGate(a, b, c, Some(d), qM', qO', qC', q4', pi);
      BigMulRowSatisfiesGate(qM', aEval, bEval, q4', dEval, qC', pi.GetOr(0));
    }

    /** `add`: `big_add` with no fourth wire. */
    method Add2(qLA: (Fe, Variable), qRB: (Fe, Variable), qC': Fe, pi: Option<Fe>)
      returns (c: Variable)
      requires Valid()
      requires qLA.1 < |variables| && qRB.1 < |variables|
      modifies this
      ensures Valid()
      ensures c == old(|variables|)
      ensures variables == old(variables) + [BigAddOutput(qLA.0, old(variables)[qLA.1], qRB.0, old(variables)[qRB.1],
                                                          0, 0, qC', pi.GetOr(0))]
      ensures PushedRow(BigAddRow(qLA.1, qRB.1, c, zeroVar, qLA.0, qRB.0, Neg(1), 0, qC'), pi)
      ensures GateHolds(old(n))
    {
      c := BigAdd(qLA, qRB, None, qC', pi);
    }

    /** `mul`: `big_mul` with no fourth wire. */
    method Mul2(qM': Fe, a: Variable, b: Variable, qC': Fe, pi: Option<Fe>)
      returns (c: Variable)
      requires Valid()
      requires a < |variables| && b < |variables|
      modifies this
      ensures Valid()
      ensures c == old(|variables|)
      ensures variables == old(variables) + [BigMulOutput(qM', old(variables)[a], old(variables)[b],
                                                          0, 0, qC', pi.GetOr(0))]
      ensures PushedRow(BigMulRow(a, b, c, zeroVar, qM', Neg(1), qC', 0), pi)
      ensures GateHolds(old(n))
    {
      c := BigMul(qM', a, b, None, qC', pi);
    }
  }

  /** The preprocessed selectors of the arithmetic widget are the composer's
      selector columns: their evaluations at row `i` are the column entries. */
  ghost predicate SelectorsAt(pk: ArithmeticWidget.ProverKey, cs: StandardComposer, i: nat)
    reads cs
    requires cs.Valid() && i < cs.n
  {
    ArithmeticWidget.IndexInDomain(pk, i) &&
    pk.qM.evals[i] == cs.cols.qM[i] && pk.qL.evals[i] == cs.cols.qL[i] &&
    pk.qR.evals[i] == cs.cols.qR[i] && pk.qO.evals[i] == cs.cols.qO[i] &&
    pk.q4.evals[i] == cs.cols.q4[i] && pk.qC.evals[i] == cs.cols.qC[i] &&
    pk.qArith.evals[i] == cs.cols.qArith[i]
  }

  /** A row whose gate holds and that carries no public input contributes
      nothing to the arithmetic quotient at its domain point: rows built by
      `big_add` and `big_mul` without a public input are such rows. */
  lemma SatisfiedRowHasZeroQuotient(cs: StandardComposer, i: nat, pk: ArithmeticWidget.ProverKey)
    requires cs.Valid() && i < cs.n && cs.GateHolds(i) && i !in cs.publicInputs
    requires SelectorsAt(pk, cs, i)
    ensures var r := cs.cols.Row(i);
            ArithmeticWidget.ComputeQuotientI(pk, i, cs.variables[r.wL], cs.variables[r.wR],
                                              cs.variables[r.wO], cs.variables[r.w4]) == 0
  {
    var r := cs.cols.Row(i);
    AddZero(ArithmeticWidget.Gate(r.qM, r.qL, r.qR, r.qO, r.q4, r.qC, r.qArith,
                                  cs.variables[r.wL], cs.variables[r.wR], cs.variables[r.wO], cs.variables[r.w4]));
  }
}
