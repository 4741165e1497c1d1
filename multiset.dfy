/** The Plookup `MultiSet`: a vector of field elements with the operations
    the lookup argument uses on it. Field elements are compared by their
    canonical integer representative, the order the field's `Ord` uses. */
module MultiSets {
  import opened Field
  import opened Wrappers

  /** One more than the largest `u32`. */
  const U32_LIMIT: nat := 0x1_0000_0000

  // ---------------------------------------------------------------------------
  // Sequence vocabulary

  /** `u32::is_power_of_two`. */
  predicate IsPowerOfTwo(n: nat)
    decreases n
  {
    n == 1 || (n >= 2 && n % 2 == 0 && IsPowerOfTwo(n / 2))
  }

  function Pow2(k: nat): nat {
    if k == 0 then 1 else 2 * Pow2(k - 1)
  }

  /** The recursive test agrees with the usual definition 2^k. */
  lemma {:induction false} PowerOfTwoIff(n: nat)
    ensures IsPowerOfTwo(n) <==> exists k: nat :: Pow2(k) == n
    decreases n
  {
    if IsPowerOfTwo(n) {
      if n == 1 {
        assert Pow2(0) == n;
      } else {
        PowerOfTwoIff(n / 2);
        var k: nat :| Pow2(k) == n / 2;
        assert Pow2(k + 1) == n;
      }
    }
    if k: nat :| Pow2(k) == n {
      PowerOfTwoOf(k);
    }
  }

  lemma {:induction false} PowerOfTwoOf(k: nat)
    ensures IsPowerOfTwo(Pow2(k))
  {
    if k > 0 {
      PowerOfTwoOf(k - 1);
      assert Pow2(k) / 2 == Pow2(k - 1);
    }
  }

  /** `vec![x; k]`. */
  function Repeat(x: Fe, k: nat): (r: seq<Fe>)
    ensures |r| == k && forall i :: 0 <= i < k ==> r[i] == x
  {
    seq(k, _ => x)
  }

  lemma RepeatAppend(x: Fe, j: nat, k: nat)
    ensures Repeat(x, j) + Repeat(x, k) == Repeat(x, j + k)
  {
  }

  /** Non-decreasing in the canonical order. */
  ghost predicate Sorted(s: seq<Fe>) {
    forall i, j :: 0 <= i < j < |s| ==> s[i] <= s[j]
  }

  // ---------------------------------------------------------------------------
  // Sorting (the `sort` of `sorted_concat`)

  /** Inserts `x` into sorted `s` before the first element not below it. */
  function Insert(x: Fe, s: seq<Fe>): (r: seq<Fe>)
    requires Sorted(s)
    ensures Sorted(r) && multiset(r) == multiset(s) + multiset{x}
    ensures forall i :: 0 <= i < |r| ==> r[i] == x || r[i] in s
  {
    if s == [] then [x]
    else if x <= s[0] then [x] + s
    else
      var rest := Insert(x, s[1..]);
      assert s == [s[0]] + s[1..];
      SortedCons(s[0], rest);
      [s[0]] + rest
  }

  lemma SortedCons(y: Fe, s: seq<Fe>)
    requires Sorted(s) && forall i :: 0 <= i < |s| ==> y <= s[i]
    ensures Sorted([y] + s)
  {
  }

  /** Sorts by repeated insertion. */
  function Sort(s: seq<Fe>): (r: seq<Fe>)
    ensures Sorted(r) && multiset(r) == multiset(s)
  {
    if s == [] then []
    else
      assert s == [s[0]] + s[1..];
      Insert(s[0], Sort(s[1..]))
  }

  /** A sorted sequence is determined by its multiset of elements. */
  lemma {:induction false} SortedUnique(a: seq<Fe>, b: seq<Fe>)
    requires Sorted(a) && Sorted(b) && multiset(a) == multiset(b)
    ensures a == b
    decreases |a|
  {
    if a != [] {
      SortedHeads(a, b);
      SortedUnique(a[1..], b[1..]);
      assert a == [a[0]] + a[1..] && b == [b[0]] + b[1..];
    } else {
      assert |b| == |multiset(b)| == 0;
    }
  }

  /** Two sorted sequences with the same elements start alike, and their
      tails are again sorted with the same elements. */
  lemma SortedHeads(a: seq<Fe>, b: seq<Fe>)
    requires Sorted(a) && Sorted(b) && multiset(a) == multiset(b) && a != []
    ensures b != [] && a[0] == b[0]
    ensures Sorted(a[1..]) && Sorted(b[1..]) && multiset(a[1..]) == multiset(b[1..])
  {
    assert |a| == |multiset(a)| == |b|;
    assert a[0] == b[0] by {
      assert a[0] in multiset(a) && b[0] in multiset(b);
      HeadIsLeast(b, a[0]);
      HeadIsLeast(a, b[0]);
    }
    TailMultiset(a);
    TailMultiset(b);
  }

  lemma HeadIsLeast(s: seq<Fe>, x: Fe)
    requires Sorted(s) && x in multiset(s)
    ensures s[0] <= x
  {
    var j :| 0 <= j < |s| && s[j] == x;
  }

  lemma TailMultiset(s: seq<Fe>)
    requires s != []
    ensures multiset(s[1..]) == multiset(s) - multiset{s[0]}
  {
    assert s == [s[0]] + s[1..];
  }

  // ---------------------------------------------------------------------------
  // Alternating halves

  /** The elements at even positions. */
  function Evens(s: seq<Fe>): (r: seq<Fe>)
    ensures |r| == (|s| + 1) / 2
  {
    if s == [] then [] else [s[0]] + Odds(s[1..])
  }

  /** The elements at odd positions. */
  function Odds(s: seq<Fe>): (r: seq<Fe>)
    ensures |r| == |s| / 2
  {
    if s == [] then [] else Evens(s[1..])
  }

  /** Merges `evens` and `odds` back, alternating and starting with `evens`. */
  function Interleave(evens: seq<Fe>, odds: seq<Fe>): seq<Fe>
    requires |odds| <= |evens| <= |odds| + 1
    decreases |evens| + |odds|
  {
    if evens == [] then [] else [evens[0]] + Interleave(odds, evens[1..])
  }

  /** Interleaving the alternating halves gives back the sequence. */
  lemma {:induction false} InterleaveHalves(s: seq<Fe>)
    ensures Interleave(Evens(s), Odds(s)) == s
  {
    if s != [] {
      InterleaveHalves(s[1..]);
      assert Evens(s)[1..] == Odds(s[1..]);
      assert s == [s[0]] + s[1..];
    }
  }

  /** Splitting a concatenation: the halves of `u` continue those of `s`,
      swapped when `s` has odd length. */
  lemma HalvesAppend(s: seq<Fe>, u: seq<Fe>)
    ensures Evens(s + u) == Evens(s) + (if |s| % 2 == 0 then Evens(u) else Odds(u))
    ensures Odds(s + u) == Odds(s) + (if |s| % 2 == 0 then Odds(u) else Evens(u))
  {
    if |s| % 2 == 0 {
      HalvesAppendEven(s, u);
    } else {
      var s' := s[1..];
      HalvesAppendEven(s', u);
      HalvesStep(s, u);
      HalvesStep(s, []);
      assert s + [] == s && s' + [] == s';
      assert Evens(s + u) == [s[0]] + (Odds(s') + Odds(u)) == ([s[0]] + Odds(s')) + Odds(u);
    }
  }

  lemma HalvesAppendEven(s: seq<Fe>, u: seq<Fe>)
    requires |s| % 2 == 0
    ensures Evens(s + u) == Evens(s) + Evens(u)
    ensures Odds(s + u) == Odds(s) + Odds(u)
  {
    EvensAppendEven(s, u);
    OddsAppendEven(s, u);
  }

  lemma {:induction false} EvensAppendEven(s: seq<Fe>, u: seq<Fe>)
    requires |s| % 2 == 0
    ensures Evens(s + u) == Evens(s) + Evens(u)
    decreases |s|
  {
    if s == [] {
      assert s + u == u;
    } else {
      var r := s[2..];
      EvensAppendEven(r, u);
      HalvesTwo(s);
      HalvesTwo(s + u);
      assert (s + u)[2..] == r + u;
      assert Evens(s + u) == [s[0]] + (Evens(r) + Evens(u)) == ([s[0]] + Evens(r)) + Evens(u);
    }
  }

  lemma {:induction false} OddsAppendEven(s: seq<Fe>, u: seq<Fe>)
    requires |s| % 2 == 0
    ensures Odds(s + u) == Odds(s) + Odds(u)
    decreases |s|
  {
    if s == [] {
      assert s + u == u;
    } else {
      var r := s[2..];
      OddsAppendEven(r, u);
      HalvesTwo(s);
      HalvesTwo(s + u);
      assert (s + u)[2..] == r + u;
      assert Odds(s + u) == [s[1]] + (Odds(r) + Odds(u)) == ([s[1]] + Odds(r)) + Odds(u);
    }
  }

  lemma HalvesTwo(s: seq<Fe>)
    requires |s| >= 2
    ensures Evens(s) == [s[0]] + Evens(s[2..])
    ensures Odds(s) == [s[1]] + Odds(s[2..])
  {
    assert s[1..][1..] == s[2..];
  }

  lemma HalvesStep(s: seq<Fe>, u: seq<Fe>)
    requires s != []
    ensures Evens(s + u) == [s[0]] + Odds(s[1..] + u)
    ensures Odds(s + u) == Evens(s[1..] + u)
  {
    assert (s + u)[1..] == s[1..] + u;
  }

  lemma {:induction false} HalvesRepeat(x: Fe, k: nat)
    ensures Evens(Repeat(x, k)) == Repeat(x, (k + 1) / 2)
    ensures Odds(Repeat(x, k)) == Repeat(x, k / 2)
  {
    if k >= 1 {
      assert Repeat(x, k)[1..] == Repeat(x, k - 1);
      HalvesRepeat(x, k - 1);
    }
  }

  /** Splitting a block of `k` copies of `x` laid out after `g`: the half
      whose turn it is gets the larger share. */
  lemma LayOutBlock(g: seq<Fe>, x: Fe, k: nat)
    ensures Evens(g + Repeat(x, k)) == Evens(g) + Repeat(x, if |g| % 2 == 0 then (k + 1) / 2 else k / 2)
    ensures Odds(g + Repeat(x, k)) == Odds(g) + Repeat(x, if |g| % 2 == 0 then k / 2 else (k + 1) / 2)
  {
    HalvesAppend(g, Repeat(x, k));
    HalvesRepeat(x, k);
  }

  lemma RepeatSnoc(x: Fe, k: nat)
    ensures Repeat(x, k) + [x] == Repeat(x, k + 1)
  {
  }

  // ---------------------------------------------------------------------------
  // Pure operations

  /** `contains_all`: every element of `other` occurs in `s`. */
  function ContainsAll(s: seq<Fe>, other: seq<Fe>): bool {
    if other == [] then true else other[0] in s && ContainsAll(s, other[1..])
  }

  /** `contains_all` ignores multiplicity and order. */
  lemma {:induction false} ContainsAllIff(s: seq<Fe>, other: seq<Fe>)
    ensures ContainsAll(s, other) <==> forall x :: x in other ==> x in s
  {
    if other != [] {
      ContainsAllIff(s, other[1..]);
      assert other == [other[0]] + other[1..];
    }
  }

  /** The `test_is_subset` example: {1..7} contains {1, 2} but not {8}. */
  lemma ContainsAllExample()
    requires P > 8
    ensures ContainsAll([1, 2, 3, 4, 5, 6, 7], [1, 2])
    ensures !ContainsAll([1, 2, 3, 4, 5, 6, 7], [8])
  {
    var t: seq<Fe> := [1, 2, 3, 4, 5, 6, 7];
    ContainsAllIff(t, [1, 2]);
    ContainsAllIff(t, [8]);
    assert 1 in t && 2 in t;
    assert 8 !in t;
  }

  /** `halve`: `s[..=len/2]` and `s[len/2..]`, sharing the middle element;
      indexing the empty multiset aborts. */
  function Halve(s: seq<Fe>): (r: (seq<Fe>, seq<Fe>))
    requires |s| > 0
    ensures |r.0| == |s| / 2 + 1 && |r.1| == |s| - |s| / 2
    ensures r.0[|r.0| - 1] == r.1[0]
    ensures r.0 + r.1[1..] == s
  {
    var first, second := s[..|s| / 2 + 1], s[|s| / 2..];
    assert first + second[1..] == s;
    (first, second)
  }

  /** The `test_halve` example: halving 0..6 gives 0..3 and 3..6. */
  lemma HalveExample()
    requires P > 6
    ensures Halve([0, 1, 2, 3, 4, 5, 6]) == ([0, 1, 2, 3], [3, 4, 5, 6])
  {
    var s: seq<Fe> := [0, 1, 2, 3, 4, 5, 6];
    assert s[..4] == [0, 1, 2, 3];
    assert s[3..] == [3, 4, 5, 6];
  }

  // The three element-wise operations below are stated entry by entry,
  // which is close to their definitions; the laws they satisfy are stated
  // by `ElementwiseLaws`.

  /** Element-wise `self + other`; the zip stops at the shorter one. */
  function AddElementwise(a: seq<Fe>, b: seq<Fe>): (r: seq<Fe>)
    ensures |r| == if |a| < |b| then |a| else |b|
    ensures forall i :: 0 <= i < |r| ==> r[i] == Add(a[i], b[i])
  {
    seq(if |a| < |b| then |a| else |b|, i requires 0 <= i < |a| && i < |b| => Add(a[i], b[i]))
  }

  /** Element-wise `self * other`; the zip stops at the shorter one. */
  function MulElementwise(a: seq<Fe>, b: seq<Fe>): (r: seq<Fe>)
    ensures |r| == if |a| < |b| then |a| else |b|
    ensures forall i :: 0 <= i < |r| ==> r[i] == Mul(a[i], b[i])
  {
    seq(if |a| < |b| then |a| else |b|, i requires 0 <= i < |a| && i < |b| => Mul(a[i], b[i]))
  }

  /** `self * elem`: every element scaled. */
  function MulScalar(a: seq<Fe>, c: Fe): (r: seq<Fe>)
    ensures |r| == |a|
    ensures forall i :: 0 <= i < |a| ==> r[i] == Mul(a[i], c)
  {
    seq(|a|, i requires 0 <= i < |a| => Mul(a[i], c))
  }

  /** Element-wise addition and multiplication are commutative, and scaling
      distributes over element-wise addition. */
  lemma ElementwiseLaws(a: seq<Fe>, b: seq<Fe>, c: Fe)
    ensures AddElementwise(a, b) == AddElementwise(b, a)
    ensures MulElementwise(a, b) == MulElementwise(b, a)
    ensures MulScalar(AddElementwise(a, b), c) == AddElementwise(MulScalar(a, c), MulScalar(b, c))
  {
    forall i | 0 <= i < |a| && i < |b|
      ensures Add(a[i], b[i]) == Add(b[i], a[i]) && Mul(a[i], b[i]) == Mul(b[i], a[i])
      ensures Mul(Add(a[i], b[i]), c) == Add(Mul(a[i], c), Mul(b[i], c))
    {
      AddComm(a[i], b[i]);
      MulComm(a[i], b[i]);
      DistribRight(a[i], b[i], c);
    }
  }

  /** All multisets have length `len`. */
  ghost predicate AllOfLength(ms: seq<seq<Fe>>, len: nat) {
    forall j :: 0 <= j < |ms| ==> |ms[j]| == len
  }

  /** The fold of `compress` over `ms` taken from the last multiset back to
      the first: `acc * alpha + m`, starting from `len` zeros. */
  function CompressFold(ms: seq<seq<Fe>>, alpha: Fe, len: nat): (r: seq<Fe>)
    requires AllOfLength(ms, len)
    ensures |r| == len
  {
    if ms == [] then Repeat(0, len)
    else AddElementwise(MulScalar(CompressFold(ms[1..], alpha, len), alpha), ms[0])
  }

  /** `compress`: the random linear combination of equally long multisets
      with powers of `alpha`. An empty slice or a length mismatch aborts. */
  function Compress(ms: seq<seq<Fe>>, alpha: Fe): (r: seq<Fe>)
    requires |ms| > 0 && AllOfLength(ms, |ms[0]|)
    ensures |r| == |ms[0]|
  {
    CompressFold(ms, alpha, |ms[0]|)
  }

  /** sum over k in [j, |ms|) of alpha^k * ms[k][i], written out term by term. */
  function PowerSum(ms: seq<seq<Fe>>, alpha: Fe, i: nat, j: nat): Fe
    requires j <= |ms| && forall k :: 0 <= k < |ms| ==> i < |ms[k]|
    decreases |ms| - j
  {
    if j == |ms| then 0 else Add(Mul(Pow(alpha, j), ms[j][i]), PowerSum(ms, alpha, i, j + 1))
  }

  /** Each entry of the compressed multiset is the sum of the entries of the
      inputs weighted by successive powers of `alpha`. */
  lemma CompressIsPowerSum(ms: seq<seq<Fe>>, alpha: Fe, i: nat)
    requires |ms| > 0 && AllOfLength(ms, |ms[0]|) && i < |ms[0]|
    ensures Compress(ms, alpha)[i] == PowerSum(ms, alpha, i, 0)
  {
    CompressSuffix(ms, alpha, |ms[0]|, i, 0);
    MulOne(Compress(ms, alpha)[i]);
  }

  lemma {:induction false} CompressSuffix(ms: seq<seq<Fe>>, alpha: Fe, len: nat, i: nat, j: nat)
    requires AllOfLength(ms, len) && i < len && j <= |ms|
    ensures Mul(Pow(alpha, j), CompressFold(ms[j..], alpha, len)[i]) == PowerSum(ms, alpha, i, j)
    decreases |ms| - j
  {
    var pj := Pow(alpha, j);
    if j == |ms| {
      MulZero(pj);
    } else {
      CompressSuffix(ms, alpha, len, i, j + 1);
      assert ms[j..][1..] == ms[j + 1..];
      var rest := CompressFold(ms[j + 1..], alpha, len)[i];
      // alpha^j * (rest * alpha + m) == alpha^j * m + alpha^(j+1) * rest
      Distrib(pj, Mul(rest, alpha), ms[j][i]);
      MulComm(rest, alpha);
      MulAssoc(pj, alpha, rest);
      MulComm(pj, alpha);
      AddComm(Mul(pj, Mul(alpha, rest)), Mul(pj, ms[j][i]));
    }
  }

  // ---------------------------------------------------------------------------
  // sorted_halve's grouping

  /** The number of copies of `x` in `s`. */
  ghost function Count(s: seq<Fe>, x: Fe): nat {
    multiset(s)[x]
  }

  /** What the third loop of `sorted_halve` lays out after visiting `t[..i]`:
      for each position whose value was not seen before, all the copies of
      that value in `t` and `f` together; a repeated value adds nothing. */
  ghost function Grouped(t: seq<Fe>, f: seq<Fe>, i: nat): seq<Fe>
    requires i <= |t|
  {
    if i == 0 then []
    else Grouped(t, f, i - 1) + Repeat(t[i - 1], BlockSize(t, f, i - 1))
  }

  ghost function BlockSize(t: seq<Fe>, f: seq<Fe>, i: nat): nat
    requires i < |t|
  {
    if t[i] in t[..i] then 0 else Count(t, t[i]) + Count(f, t[i])
  }

  /** The grouping holds exactly the copies of the values already visited. */
  lemma {:induction false} GroupedCount(t: seq<Fe>, f: seq<Fe>, i: nat, x: Fe)
    requires i <= |t|
    ensures Count(Grouped(t, f, i), x) == if x in t[..i] then Count(t, x) + Count(f, x) else 0
  {
    if i > 0 {
      GroupedCount(t, f, i - 1, x);
      assert t[..i] == t[..i - 1] + [t[i - 1]];
      var k := BlockSize(t, f, i - 1);
      assert multiset(Repeat(t[i - 1], k))[x] == if x == t[i - 1] then k else 0 by {
        RepeatMultiset(t[i - 1], k, x);
      }
    }
  }

  lemma {:induction false} RepeatMultiset(y: Fe, k: nat, x: Fe)
    ensures multiset(Repeat(y, k))[x] == if x == y then k else 0
  {
    if k > 0 {
      RepeatMultiset(y, k - 1, x);
      assert Repeat(y, k) == Repeat(y, k - 1) + [y];
    }
  }

  /** With every element of `f` in `t`, the grouping is a permutation of
      `t ++ f`. */
  lemma GroupedPermutation(t: seq<Fe>, f: seq<Fe>)
    requires ContainsAll(t, f)
    ensures multiset(Grouped(t, f, |t|)) == multiset(t + f)
  {
    ContainsAllIff(t, f);
    assert t[..|t|] == t;
    forall x
      ensures multiset(Grouped(t, f, |t|))[x] == multiset(t + f)[x]
    {
      GroupedCount(t, f, |t|, x);
      if x !in t {
        assert x !in multiset(t) && x !in multiset(f);
      }
    }
  }

  /** For a sorted `t`, the grouping is sorted as well. */
  lemma {:induction false} GroupedSorted(t: seq<Fe>, f: seq<Fe>, i: nat)
    requires i <= |t| && Sorted(t)
    ensures Sorted(Grouped(t, f, i))
    ensures forall k :: 0 <= k < |Grouped(t, f, i)| ==> Grouped(t, f, i)[k] in t[..i]
  {
    if i > 0 {
      GroupedSorted(t, f, i - 1);
      var g, b := Grouped(t, f, i - 1), Repeat(t[i - 1], BlockSize(t, f, i - 1));
      assert t[..i] == t[..i - 1] + [t[i - 1]];
      forall k | 0 <= k < |g|
        ensures g[k] <= t[i - 1]
      {
        var m :| 0 <= m < i - 1 && t[m] == g[k];
      }
    }
  }

  /** For a sorted table containing every element of `f`, the grouping is
      `t ++ f` sorted: `sorted_halve` splits what `sorted_concat` builds. */
  lemma GroupedIsSortedConcat(t: seq<Fe>, f: seq<Fe>)
    requires Sorted(t) && ContainsAll(t, f)
    ensures Grouped(t, f, |t|) == Sort(t + f)
  {
    GroupedSorted(t, f, |t|);
    GroupedPermutation(t, f);
    SortedUnique(Grouped(t, f, |t|), Sort(t + f));
  }

  /** The reasons `sorted_halve` gives up. */
  datatype SortedHalveError = ElementNotInTable(x: Fe)

  /** The reasons `pad` aborts: the target is not a power of two, or it is
      below the current length so that the `u32` subtraction underflows. */
  datatype PadError = NotPowerOfTwo | LengthAboveTarget

  class MultiSet {
    var elems: seq<Fe>

    constructor (s: seq<Fe>)
      ensures elems == s
    {
      elems := s;
    }

    /** `push`. */
    method Push(value: Fe)
      modifies this
      ensures elems == old(elems) + [value]
    {
      elems := elems + [value];
    }

    /** `extend`. */
    method Extend(values: seq<Fe>)
      modifies this
      ensures elems == old(elems) + values
    {
      elems := elems + values;
    }

    /** `pad(n)`: extends the multiset to `n` elements by repeating its first
        element, after pushing a zero when it is empty. */
    method Pad(n: nat) returns (r: Result<(), PadError>)
      requires n < U32_LIMIT
      modifies this
      ensures !IsPowerOfTwo(n) ==> r == Err(NotPowerOfTwo) && elems == old(elems)
      ensures IsPowerOfTwo(n) && old(|elems|) > n ==> r == Err(LengthAboveTarget) && elems == old(elems)
      ensures IsPowerOfTwo(n) && old(|elems|) <= n ==>
                r.Ok? && |elems| == n &&
                (old(elems) == [] ==> forall i :: 0 <= i < n ==> elems[i] == 0) &&
                (old(elems) != [] ==> elems[..old(|elems|)] == old(elems) &&
                                      forall i :: old(|elems|) <= i < n ==> elems[i] == old(elems)[0])
    {
      if !IsPowerOfTwo(n) {
        return Err(NotPowerOfTwo);
      }
      if elems == [] {
        Push(0);
      }
      if |elems| > n {
        return Err(LengthAboveTarget);
      }
      var diff := n - |elems|;
      Extend(Repeat(elems[0], diff));
      r := Ok(());
    }

    /** `sorted_concat`: appends `other` and sorts. */
    method SortedConcat(other: seq<Fe>)
      modifies this
      ensures Sorted(elems) && multiset(elems) == multiset(old(elems) + other)
    {
      Extend(other);
      elems := Sort(elems);
    }

    /** `contains`: the membership test, stated as a position that holds
        the entry; `ContainsAllIff` builds on the same membership. */
    function Contains(x: Fe): (b: bool)
      reads this
      ensures b <==> exists i :: 0 <= i < |elems| && elems[i] == x
    {
      x in elems
    }

    /** `halve_alternating`: the even-position and odd-position elements. */
    method HalveAlternating() returns (evens: seq<Fe>, odds: seq<Fe>)
      ensures evens == Evens(elems) && odds == Odds(elems)
      ensures Interleave(evens, odds) == elems
    {
      evens, odds := [], [];
      for i := 0 to |elems|
        invariant evens == Evens(elems[..i]) && odds == Odds(elems[..i])
      {
        HalvesAppend(elems[..i], [elems[i]]);
        PrefixSnoc(elems, i);
        if i % 2 == 0 {
          evens := evens + [elems[i]];
        } else {
          odds := odds + [elems[i]];
        }
      }
      assert elems[..|elems|] == elems;
      InterleaveHalves(elems);
    }

    /** `sorted_halve(f)`: counts every value of the table and of `f`, then
        walks the table laying out each distinct value's copies alternately
        over `evens` and `odds`; an element of `f` missing from the table
        aborts. */
    method SortedHalve(f: seq<Fe>) returns (r: Result<(seq<Fe>, seq<Fe>), SortedHalveError>)
      ensures r.Err? <==> !ContainsAll(elems, f)
      ensures r.Err? ==> r.error.x in f && r.error.x !in elems
      ensures r.Ok? ==> r.value == (Evens(Grouped(elems, f, |elems|)), Odds(Grouped(elems, f, |elems|)))
    {
      var counters := CountTable(elems);
      var counted := CountLookups(elems, counters, f);
      if counted.Err? {
        return Err(counted.error);
      }
      var evens, odds := LayOut(elems, f, counted.value);
      r := Ok((evens, odds));
    }
  }

  /** The first loop of `sorted_halve`: the number of copies of each value
      of the table. */
  method CountTable(t: seq<Fe>) returns (counters: map<Fe, nat>)
    ensures forall x :: x in counters <==> x in t
    ensures forall x :: x in counters ==> counters[x] == Count(t, x)
  {
    counters := map[];
    for i := 0 to |t|
      invariant forall x :: x in counters <==> x in t[..i]
      invariant forall x :: x in counters ==> counters[x] == Count(t[..i], x)
    {
      PrefixSnoc(t, i);
      var val := if t[i] in counters then counters[t[i]] + 1 else 1;
      counters := counters[t[i] := val];
    }
    assert t[..|t|] == t;
  }

  /** The second loop of `sorted_halve`: adds the copies in `f`, giving up
      at the first element of `f` that the table lacks. */
  method CountLookups(t: seq<Fe>, counters: map<Fe, nat>, f: seq<Fe>)
    returns (r: Result<map<Fe, nat>, SortedHalveError>)
    requires forall x :: x in counters <==> x in t
    requires forall x :: x in counters ==> counters[x] == Count(t, x)
    ensures r.Err? <==> !ContainsAll(t, f)
    ensures r.Err? ==> r.error.x in f && r.error.x !in t
    ensures r.Ok? ==> (forall x :: x in r.value <==> x in t) &&
                      forall x :: x in r.value ==> r.value[x] == Count(t, x) + Count(f, x)
  {
    ContainsAllIff(t, f);
    var cs := counters;
    for j := 0 to |f|
      invariant forall x :: x in cs <==> x in t
      invariant forall x :: x in cs ==> cs[x] == Count(t, x) + Count(f[..j], x)
      invariant forall k :: 0 <= k < j ==> f[k] in t
    {
      PrefixSnoc(f, j);
      if f[j] !in cs {
        return Err(ElementNotInTable(f[j]));
      }
      cs := cs[f[j] := cs[f[j]] + 1];
    }
    assert f[..|f|] == f;
    r := Ok(cs);
  }

  /** The third loop of `sorted_halve`: each value's first visit lays out
      its copies over `evens` and `odds` and clears its counter, so later
      visits of the same value add nothing. */
  method LayOut(t: seq<Fe>, f: seq<Fe>, counters: map<Fe, nat>) returns (evens: seq<Fe>, odds: seq<Fe>)
    requires forall x :: x in counters <==> x in t
    requires forall x :: x in counters ==> counters[x] == Count(t, x) + Count(f, x)
    ensures evens == Evens(Grouped(t, f, |t|)) && odds == Odds(Grouped(t, f, |t|))
  {
    var cs := counters;
    evens, odds := [], [];
    var parity := 0;
    for i := 0 to |t|
      invariant forall x :: x in cs <==> x in t
      invariant forall x :: x in cs ==> cs[x] == if x in t[..i] then 0 else Count(t, x) + Count(f, x)
      invariant evens == Evens(Grouped(t, f, i)) && odds == Odds(Grouped(t, f, i))
      invariant parity == |Grouped(t, f, i)| % 2
    {
      var elem := t[i];
      var count := cs[elem];
      assert count == BlockSize(t, f, i);
      evens, odds, parity := LayOutValue(elem, count, evens, odds, parity, Grouped(t, f, i));
      PrefixSnoc(t, i);
      cs := cs[elem := 0];
    }
  }

  lemma PrefixSnoc(t: seq<Fe>, i: nat)
    requires i < |t|
    ensures t[..i + 1] == t[..i] + [t[i]]
  {
  }

  /** One visit of the third loop: half of the `count` copies of `elem` go to
      each of `evens` and `odds`; an odd leftover goes to `evens` when
      `parity` is 0 and to `odds` when it is 1, and flips `parity`. Laid out
      after `g`, this continues the alternating halves of `g`. */
  method LayOutValue(elem: Fe, count: nat, evens: seq<Fe>, odds: seq<Fe>, parity: nat, ghost g: seq<Fe>)
    returns (evens': seq<Fe>, odds': seq<Fe>, parity': nat)
    requires evens == Evens(g) && odds == Odds(g) && parity == |g| % 2
    ensures evens' == Evens(g + Repeat(elem, count)) && odds' == Odds(g + Repeat(elem, count))
    ensures parity' == |g + Repeat(elem, count)| % 2
  {
    var half := count / 2;
    LayOutBlock(g, elem, count);
    RepeatSnoc(elem, half);
    evens', odds', parity' := evens + Repeat(elem, half), odds + Repeat(elem, half), parity;
    if count % 2 == 1 {
      if parity == 1 {
        odds' := odds' + [elem];
        parity' := 0;
      } else {
        evens' := evens' + [elem];
        parity' := 1;
      }
    }
  }

  /** Both halves of `sorted_halve` together hold `|t| + |f|` elements, and
      `evens` has the same number as `odds` or one more. */
  lemma SortedHalveSizes(t: seq<Fe>, f: seq<Fe>)
    requires ContainsAll(t, f)
    ensures |Evens(Grouped(t, f, |t|))| + |Odds(Grouped(t, f, |t|))| == |t| + |f|
    ensures 0 <= |Evens(Grouped(t, f, |t|))| - |Odds(Grouped(t, f, |t|))| <= 1
  {
    GroupedPermutation(t, f);
    assert |Grouped(t, f, |t|)| == |multiset(Grouped(t, f, |t|))| == |multiset(t + f)|;
  }

  /** For a sorted table, `sorted_halve(f)` gives the alternating halves of
      the table `sorted_concat`ed with `f`. */
  lemma SortedHalveIsHalvedConcat(t: seq<Fe>, f: seq<Fe>)
    requires Sorted(t) && ContainsAll(t, f)
    ensures Evens(Grouped(t, f, |t|)) == Evens(Sort(t + f))
    ensures Odds(Grouped(t, f, |t|)) == Odds(Sort(t + f))
  {
    GroupedIsSortedConcat(t, f);
  }
}
