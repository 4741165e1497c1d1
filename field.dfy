/** The scalar field of the proof system: the integers modulo a prime P > 3.
    The source is generic over the pairing engine's scalar field (BLS12-381 or
    BLS12-377); here P is an arbitrary prime larger than 3, so every property
    proved below holds for both. Group elements (commitments) are modelled as a
    cyclic group of order P, represented by their discrete logarithm. */
module Field {

  ghost predicate IsPrime(p: nat) {
    p > 1 && forall d :: 1 < d < p ==> p % d != 0
  }

  type Prime = p: nat | p > 3 && IsPrime(p) witness 5

  /** The field characteristic. */
  const P: Prime

  /** A field element in canonical form. */
  type Fe = x: int | 0 <= x < P

  function Add(a: Fe, b: Fe): Fe { (a + b) % P }
  function Neg(a: Fe): Fe { (P - a) % P }
  function Sub(a: Fe, b: Fe): Fe { (a - b) % P }
  function Mul(a: Fe, b: Fe): Fe { (a * b) % P }
  function Square(a: Fe): Fe { Mul(a, a) }

  /** `F::from(n)` for an unsigned machine integer. */
  function FromNat(n: nat): Fe { n % P }

  function Pow(a: Fe, k: nat): Fe {
    if k == 0 then 1 else Mul(a, Pow(a, k - 1))
  }

  // ---------------------------------------------------------------------------
  // Arithmetic modulo P

  lemma MulPos(k: int)
    requires k >= 1
    ensures k * P >= P
  {
  }

  lemma ModUnique(y: int, q: int, r: int)
    requires y == q * P + r && 0 <= r < P
    ensures y % P == r
  {
    var q', r' := y / P, y % P;
    assert y == q' * P + r';
    assert (q - q') * P == r' - r;
    if q - q' >= 1 {
      MulPos(q - q');
    } else if q' - q >= 1 {
      MulPos(q' - q);
    }
  }

  lemma ModShift(x: int, k: int)
    ensures (x + k * P) % P == x % P
  {
    ModUnique(x + k * P, x / P + k, x % P);
  }

  /** Reduction of a value within one modulus of the canonical range. */
  lemma ModNear(x: int)
    requires 0 <= x + P && x < 2 * P
    ensures x % P == if x < 0 then x + P else if x < P then x else x - P
  {
    if x < 0 {
      ModUnique(x, -1, x + P);
    } else if x < P {
      ModUnique(x, 0, x);
    } else {
      ModUnique(x, 1, x - P);
    }
  }

  lemma ModAddLeft(x: int, y: int)
    ensures (x % P + y) % P == (x + y) % P
  {
    ModShift(x % P + y, x / P);
  }

  lemma ModSumMod(x: int, y: int)
    ensures (x % P + y % P) % P == (x + y) % P
  {
    ModAddLeft(x, y % P);
    ModAddLeft(y, x);
    assert x + y % P == y % P + x;
  }

  lemma ModDistrib(x: int, y: int, z: int)
    ensures (x * ((y + z) % P)) % P == ((x * y) % P + (x * z) % P) % P
  {
    calc {
      (x * ((y + z) % P)) % P;
      { ModMulRight(x, y + z); }
      (x * (y + z)) % P;
      { IntDistrib(x, y, z); }
      (x * y + x * z) % P;
      { ModSumMod(x * y, x * z); }
      ((x * y) % P + (x * z) % P) % P;
    }
  }

  lemma ModMulLeft(x: int, y: int)
    ensures ((x % P) * y) % P == (x * y) % P
  {
    var q := x / P;
    assert x * y == (x % P) * y + (q * y) * P;
    ModShift((x % P) * y, q * y);
  }

  lemma IntMulAssoc(x: int, y: int, z: int)
    ensures (x * y) * z == x * (y * z)
  {
  }

  lemma IntDistrib(x: int, y: int, z: int)
    ensures x * (y + z) == x * y + x * z
  {
  }

  lemma ModMulRight(x: int, y: int)
    ensures (x * (y % P)) % P == (x * y) % P
  {
    var r := y % P;
    assert x * r == r * x;
    assert x * y == y * x;
    ModMulLeft(y, x);
  }

  // ---------------------------------------------------------------------------
  // Ring laws of the field operations

  lemma AddComm(a: Fe, b: Fe)
    ensures Add(a, b) == Add(b, a)
  {
  }

  lemma AddAssoc(a: Fe, b: Fe, c: Fe)
    ensures Add(Add(a, b), c) == Add(a, Add(b, c))
  {
    ModNear(a + b);
    ModNear(b + c);
    ModNear(Add(a, b) + c);
    ModNear(a + Add(b, c));
  }

  lemma AddZero(a: Fe)
    ensures Add(a, 0) == a && Add(0, a) == a
  {
  }

  lemma MulComm(a: Fe, b: Fe)
    ensures Mul(a, b) == Mul(b, a)
  {
    assert a * b == b * a;
  }

  lemma MulAssoc(a: Fe, b: Fe, c: Fe)
    ensures Mul(Mul(a, b), c) == Mul(a, Mul(b, c))
  {
    var ab, bc := a * b, b * c;
    IntMulAssoc(a, b, c);
    ModMulLeft(ab, c);
    ModMulRight(a, bc);
  }

  lemma MulOne(a: Fe)
    ensures Mul(a, 1) == a && Mul(1, a) == a
  {
  }

  lemma MulZero(a: Fe)
    ensures Mul(a, 0) == 0 && Mul(0, a) == 0
  {
  }

  lemma Distrib(a: Fe, b: Fe, c: Fe)
    ensures Mul(a, Add(b, c)) == Add(Mul(a, b), Mul(a, c))
  {
    ModDistrib(a, b, c);
  }

  lemma DistribRight(a: Fe, b: Fe, c: Fe)
    ensures Mul(Add(a, b), c) == Add(Mul(a, c), Mul(b, c))
  {
    MulComm(Add(a, b), c);
    Distrib(c, a, b);
    MulComm(c, a);
    MulComm(c, b);
  }

  /** (a + b) + c == (a + c) + b */
  lemma AddRightComm(a: Fe, b: Fe, c: Fe)
    ensures Add(Add(a, b), c) == Add(Add(a, c), b)
  {
    AddAssoc(a, b, c);
    AddComm(b, c);
    AddAssoc(a, c, b);
  }

  /** (a + b) + (c + d) == (a + c) + (b + d) */
  lemma AddSwap(a: Fe, b: Fe, c: Fe, d: Fe)
    ensures Add(Add(a, b), Add(c, d)) == Add(Add(a, c), Add(b, d))
  {
    AddAssoc(a, b, Add(c, d));
    AddAssoc(b, c, d);
    AddComm(b, c);
    AddAssoc(c, b, d);
    AddAssoc(a, c, Add(b, d));
  }

  lemma SubIsAddNeg(a: Fe, b: Fe)
    ensures Sub(a, b) == Add(a, Neg(b))
  {
    ModNear(P - b);
    ModNear(a - b);
    ModNear(a + Neg(b));
  }

  lemma AddNegSelf(a: Fe)
    ensures Add(a, Neg(a)) == 0
  {
    SubIsAddNeg(a, a);
  }

  lemma MulNegOne(a: Fe)
    ensures Mul(Neg(1), a) == Neg(a)
  {
    var m := P - 1;
    assert Neg(1) == m;
    ModMulLeft(m, a);
    assert m * a == (P - a) + (a - 1) * P;
    ModShift(P - a, a - 1);
  }

  lemma NegMulLeft(a: Fe, b: Fe)
    ensures Mul(Neg(a), b) == Neg(Mul(a, b))
  {
    MulNegOne(a);
    MulAssoc(Neg(1), a, b);
    MulNegOne(Mul(a, b));
  }

  /** Adding the same element on the left can be cancelled. */
  lemma AddCancelLeft(a: Fe, b: Fe, c: Fe)
    requires Add(a, b) == Add(a, c)
    ensures b == c
  {
    AddComm(Neg(a), a);
    AddNegSelf(a);
    AddAssoc(Neg(a), a, b);
    AddAssoc(Neg(a), a, c);
    AddZero(b);
    AddZero(c);
  }

  lemma SubSelf(a: Fe)
    ensures Sub(a, a) == 0
  {
  }

  /** Euclid's lemma in the form used here: a product of non-zero field
      elements is non-zero. */
  lemma {:induction false} MulNonZero(a: Fe, b: Fe)
    requires a != 0 && b != 0
    ensures Mul(a, b) != 0
    decreases a
  {
    if a == 1 {
      MulOne(b);
    } else {
      var q, r := P / a, P % a;
      assert P == q * a + r;
      assert r != 0;
      // r * b = P * b - q * (a * b), so it vanishes with a * b.
      if Mul(a, b) == 0 {
        var k := (a * b) / P;
        assert a * b == k * P;
        assert r * b == (b - q * k) * P;
        ModShift(0, b - q * k);
        assert Mul(r, b) == 0;
        MulNonZero(r, b);
      }
    }
  }

  /** Adding back what was subtracted restores the element. */
  lemma SubAddBack(x: Fe, y: Fe)
    ensures Add(y, Sub(x, y)) == x
  {
    ModNear(x - y);
    ModNear(y + Sub(x, y));
  }

  /** Multiplying by the same non-zero element on the left can be
      cancelled. */
  lemma MulCancelLeft(h: Fe, x: Fe, y: Fe)
    requires h != 0 && Mul(h, x) == Mul(h, y)
    ensures x == y
  {
    if x != y {
      var d := Sub(x, y);
      assert d != 0 by { ModNear(x - y); }
      SubAddBack(x, y);
      Distrib(h, y, d);
      AddZero(Mul(h, y));
      AddCancelLeft(Mul(h, y), Mul(h, d), 0);
      MulNonZero(h, d);
      assert false;
    }
  }
}
