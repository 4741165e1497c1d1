# PLONK/Plookup prover core: a Dafny model

This project models the arithmetic core of the ZK-Garage PLONK/Plookup prover and proves properties about it. It covers:

- the Plookup `MultiSet`, with padding, halving, alternating halves, the count-based `sorted_halve`, sorted concatenation, `contains_all`, compression by a random linear combination, and element-wise addition and multiplication;
- the standard composer's arithmetic gate builders (`add_gate`, `big_add_gate`, `mul_gate`, `big_mul_gate`, `add`, `big_add`, `mul`, `big_mul`);
- the arithmetic and lookup gate widgets: the quotient contribution at a domain point, the prover's linearisation polynomial, and the (scalar, commitment) pairs the verifier appends;
- the range gate widget in both of its versions, which define only the constraint and `delta`;
- the KZG aggregate proof (`with_witness`, `add_part`, `flatten`);
- the construction of the public-input vector (`build_pi`, `fe_into`, `ge_into`).

The scalar field is the integers modulo an arbitrary prime `P > 3` (`Field`).

Group elements (commitments) are modelled as the cyclic group of order `P`, each element given by its discrete logarithm (`Commitment.Point`). A KZG commitment to a polynomial `p` is `[p(tau)]G` for a setup secret `tau`, which is a parameter. With this, "the verifier's scalars and commitments combine to the commitment of the prover's linearisation polynomial" becomes a statement that can be proved.

Polynomials are coefficient sequences (`Poly`) with Horner evaluation.

State that the source changes in place is modelled as Dafny classes:

- `MultiSets.MultiSet` holds `elems`.
- `Composer.StandardComposer` holds `n`, the columns, the public-input map, the witness arena and the permutation registrations. Its invariant `Valid` says:
  - all columns have `n` rows;
  - every public input sits at an existing row;
  - row `i`'s wires are registered at position `i`.
- `KzgProof.AggregateProof` holds the witness and the two part lists.

Loops of the source are methods with loop invariants, proved against specification functions:

- `halve_alternating`;
- the three loops of `sorted_halve`;
- `build_pi`.

The verifier routines that push onto `&mut Vec` take the vectors as sequences and return the extended ones.

## Model

| member | source | states |
|---|---|---|
| MultiSets.PowerOfTwoIff | plonk-core/src/lookup/multiset.rs:84 | the recursive power-of-two test used by `pad` holds exactly for the numbers 2^k |
| MultiSets.MultiSet.Pad | plonk-core/src/lookup/multiset.rs:83-90 | a target that is not a power of two, or is below the current length (the `u32` subtraction underflows), is an error and leaves the multiset unchanged. Otherwise the result has exactly `n` elements. An empty multiset becomes `n` zeros. A non-empty one keeps its prefix, and every new entry equals its first element |
| MultiSets.MultiSet.Push | plonk-core/src/lookup/multiset.rs:93-95 | the value is appended |
| MultiSets.MultiSet.Extend | plonk-core/src/lookup/multiset.rs:98-104 | the values are appended in order |
| MultiSets.MultiSet.Contains | plonk-core/src/lookup/multiset.rs:208-210 | true iff some position holds the entry |
| MultiSets.Sort | plonk-core/src/lookup/multiset.rs:255 | the result is non-decreasing and a permutation of the input |
| MultiSets.SortedUnique | plonk-core/src/lookup/multiset.rs:252-256 | two sorted sequences with the same elements are equal, so the outcome of `sorted_concat` is determined by its inputs |
| MultiSets.MultiSet.SortedConcat | plonk-core/src/lookup/multiset.rs:252-256 | the new contents are sorted and a permutation of the old contents followed by `other` |
| MultiSets.Evens | plonk-core/src/lookup/multiset.rs:184-195 | the even-position half has ceil(len/2) elements |
| MultiSets.Odds | plonk-core/src/lookup/multiset.rs:184-195 | the odd-position half has floor(len/2) elements |
| MultiSets.MultiSet.HalveAlternating | plonk-core/src/lookup/multiset.rs:184-195 | the loop yields the even-position and odd-position elements, and interleaving them gives back the multiset |
| MultiSets.InterleaveHalves | plonk-core/src/lookup/multiset.rs:184-195 | interleaving the alternating halves restores the sequence, so the split loses nothing |
| MultiSets.HalvesAppend | plonk-core/src/lookup/multiset.rs:184-195 | the alternating halves of a concatenation continue those of the first part, swapped after an odd-length part |
| MultiSets.ContainsAllIff | plonk-core/src/lookup/multiset.rs:200-205 | `contains_all` holds iff every element of `other` occurs in `self`, ignoring multiplicity |
| MultiSets.ContainsAllExample | plonk-core/src/lookup/multiset.rs:399-416 | {1..7} contains all of {1, 2} and not all of {8} |
| MultiSets.Halve | plonk-core/src/lookup/multiset.rs:217-222 | the halves have len/2+1 and len-len/2 elements. The last element of the first equals the first element of the second, and joining them without that duplicate gives the input |
| MultiSets.HalveExample | plonk-core/src/lookup/multiset.rs:336-374 | halving 0..6 gives 0..3 and 3..6, each with four elements |
| MultiSets.AddElementwise | plonk-core/src/lookup/multiset.rs:283-296 | `self + other` has the shorter operand's length, and entry `i` is the sum of the operands' entries `i` |
| MultiSets.MulElementwise | plonk-core/src/lookup/multiset.rs:299-312 | `self * other` has the shorter operand's length, and entry `i` is the product of the operands' entries `i` |
| MultiSets.MulScalar | plonk-core/src/lookup/multiset.rs:315-323 | `self * elem` keeps the length and scales every entry |
| MultiSets.ElementwiseLaws | plonk-core/src/lookup/multiset.rs:283-324 | element-wise addition and multiplication are commutative (the zip stops at the shorter operand), and scaling distributes over element-wise addition |
| MultiSets.Compress | plonk-core/src/lookup/multiset.rs:240-249 | a non-empty slice of equal-length multisets compresses to a multiset of that length |
| MultiSets.CompressIsPowerSum | plonk-core/src/lookup/multiset.rs:240-249 | entry `i` of the reverse Horner fold is the sum over j of alpha^j * m_j[i] |
| MultiSets.CountTable | plonk-core/src/lookup/multiset.rs:136-146 | the first loop's map has exactly the table's values as keys, each mapped to its number of copies |
| MultiSets.CountLookups | plonk-core/src/lookup/multiset.rs:148-155 | the second loop fails exactly when `f` has an element missing from the table, and names such an element. Otherwise each count becomes the copies in the table plus the copies in `f` |
| MultiSets.LayOutValue | plonk-core/src/lookup/multiset.rs:158-174 | one visit adds half the copies to each half. An odd leftover goes to the half whose turn it is, and parity flips. Together this continues the alternating halves of the layout so far |
| MultiSets.LayOut | plonk-core/src/lookup/multiset.rs:157-175 | the third loop produces the alternating halves of the grouping: each distinct table value in first-visit order, with all its copies from the table and `f` |
| MultiSets.MultiSet.SortedHalve | plonk-core/src/lookup/multiset.rs:133-178 | fails iff some element of `f` is not in the table, naming such an element. Otherwise it returns the alternating halves of the grouping |
| MultiSets.GroupedPermutation | plonk-core/src/lookup/multiset.rs:133-178 | when the table contains all of `f`, the grouping is a permutation of table ++ f |
| MultiSets.SortedHalveSizes | plonk-core/src/lookup/multiset.rs:133-178 | the two halves together hold len(t) + len(f) elements, and `evens` has as many as `odds` or one more |
| MultiSets.SortedHalveIsHalvedConcat | plonk-core/src/lookup/multiset.rs:133-178 | for a sorted table, the halves are the alternating halves of t ++ f sorted, which is what `sorted_concat` builds |
| Composer.Columns.Push | src/constraint_system/arithmetic.rs:58-76 | every one of the 15 columns grows by one. The new row is the pushed row and earlier rows are unchanged |
| Composer.StandardComposer.PushRow | src/constraint_system/arithmetic.rs:58-84 | appends the row and records the public input at the old `n`; the duplicate-key assertion cannot fail under `Valid`. Registers the wires at the old `n`, increments `n` and keeps `Valid` |
| Composer.StandardComposer.BigAddGate | src/constraint_system/arithmetic.rs:39-87 | pushes exactly the row (a, b, c, d or the zero variable, q_m = 0, q_l, q_r, q_o, q_4, q_c, q_arith = 1, the other selectors 0), keeps `Valid` and returns `c` |
| Composer.StandardComposer.BigMulGate | src/constraint_system/arithmetic.rs:120-170 | pushes exactly the row (a, b, c, d or the zero variable, q_m, q_l = q_r = 0, q_o, q_4, q_c, q_arith = 1, the other selectors 0), keeps `Valid` and returns `c` |
| Composer.StandardComposer.AddGate | src/constraint_system/arithmetic.rs:18-30 | `big_add_gate` with the zero variable as fourth wire and q_4 = 0 |
| Composer.StandardComposer.MulGate | src/constraint_system/arithmetic.rs:94-105 | `big_mul_gate` with the zero variable as fourth wire and q_4 = 0 |
| Composer.StandardComposer.BigAdd | src/constraint_system/arithmetic.rs:205-236 | allocates c = q_l*a + q_r*b + q_4*d + q_c + pi as a new witness, pushes the `big_add_gate` row with q_o = -1, and the new row satisfies its gate equation |
| Composer.StandardComposer.BigMul | src/constraint_system/arithmetic.rs:277-305 | allocates c = q_m*a*b + q_4*d + q_c + pi as a new witness, pushes the `big_mul_gate` row with q_o = -1, and the new row satisfies its gate equation |
| Composer.StandardComposer.Add2 | src/constraint_system/arithmetic.rs:183-191 | `big_add` with no fourth wire: the output is q_l*a + q_r*b + q_c + pi and the row's gate holds |
| Composer.StandardComposer.Mul2 | src/constraint_system/arithmetic.rs:252-261 | `big_mul` with no fourth wire: the output is q_m*a*b + q_c + pi and the row's gate holds |
| Composer.BigAddRowSatisfiesGate | src/constraint_system/arithmetic.rs:222-235 | with q_o = -1 and the derived output, q_l*a + q_r*b + q_o*c + q_4*d + q_c + pi = 0 |
| Composer.BigMulRowSatisfiesGate | src/constraint_system/arithmetic.rs:286-304 | with q_o = -1 and the derived output, q_m*a*b + q_o*c + q_4*d + q_c + pi = 0 |
| Composer.BigAddMulExample | src/constraint_system/arithmetic.rs:426-459 | (4+5+5) and (6+7+7) from `big_add`, and 8*9 as fourth wire, give 352 from `big_mul` |
| Composer.SatisfiedRowHasZeroQuotient | src/proof_system/widget/arithmetic.rs:60-66 | a composer row whose gate holds and which has no public input contributes zero to the arithmetic quotient at the point whose selector evaluations are that row's selectors. In the source those evaluations lie on the 4n coset after preprocessing, so matching them to row `i` is an idealisation of preprocessing |
| ArithmeticWidget.ComputeQuotientI | src/proof_system/widget/arithmetic.rs:52-67 | the contribution vanishes wherever `q_arith` is zero |
| ArithmeticWidget.LinearisationEval | src/proof_system/widget/arithmetic.rs:71-86 | the linearisation polynomial at `x` is (q_m(x)ab + q_l(x)a + q_r(x)b + q_o(x)c + q_4(x)d + q_c(x)) * q_arith_eval |
| ArithmeticWidget.ComputeLinearisationCommitment | src/proof_system/widget/arithmetic.rs:126-151 | appends exactly the six scalars ab*q, a*q, b*q, c*q, d*q, q and the six commitments q_m, q_l, q_r, q_o, q_4, q_c, in lockstep, leaving earlier entries unchanged |
| ArithmeticWidget.VerifierMatchesProver | src/proof_system/widget/arithmetic.rs:134-149 | when the verifier key commits to the prover key's selectors, the six pairs combine to the commitment of the prover's linearisation polynomial |
| RangeWidget.Delta | src/proof_system/widget/range.rs:40-48 | in a field of prime characteristic above 3, `delta(f)` is zero exactly for f in {0, 1, 2, 3} |
| RangeWidget.ConstraintsVanishOnDigits | src/proof_system/widget/range.rs:26-36 | if every base-4 step output-4*fourth, right-4*output, left-4*right and fourth_next-4*left is a digit, the constraint is zero |
| RangeWidget.ConstraintsVanishOnZeroChallenge | src/proof_system/widget/range.rs:26-36 | the constraint is zero when the separation challenge is zero |
| CoreRangeWidget.Delta | plonk-core/src/proof_system/widget/range.rs:68-76 | `delta(f)` is zero exactly for f in {0, 1, 2, 3} |
| CoreRangeWidget.AgreesWithRangeWidget | plonk-core/src/proof_system/widget/range.rs:49-64 | this version equals the other one under the renaming c↔output, d↔fourth, r↔right, a↔left, d_next↔fourth_next |
| CoreRangeWidget.ConstraintsVanishOnDigits | plonk-core/src/proof_system/widget/range.rs:49-64 | if every base-4 step c-4d, r-4c, a-4r and d_next-4a is a digit, the constraint is zero |
| CoreRangeWidget.ConstraintsVanishOnZeroChallenge | plonk-core/src/proof_system/widget/range.rs:49-64 | the constraint is zero when the separation challenge is zero |
| LookupWidget.Compress | plonk-core/src/proof_system/widget/lookup.rs:153-155 | the compressed row is a + ζb + ζ²c + ζ³d, the expansion the verifier writes out |
| LookupWidget.TermA | plonk-core/src/proof_system/widget/lookup.rs:65-73 | the selector term vanishes when q_lookup is zero at the point or when the compressed row equals `f` |
| LookupWidget.TermB | plonk-core/src/proof_system/widget/lookup.rs:75-81 | the grand-product numerator term vanishes when z2 or the separation challenge is zero |
| LookupWidget.TermC | plonk-core/src/proof_system/widget/lookup.rs:83-89 | the grand-product denominator term vanishes when z2 at the next point or the separation challenge is zero |
| LookupWidget.TermD | plonk-core/src/proof_system/widget/lookup.rs:91 | (z2 - 1) * l1 * sep³ vanishes when z2 = 1 or l1 = 0 |
| LookupWidget.TermsBCCancel | plonk-core/src/proof_system/widget/lookup.rs:75-89 | when the grand product steps correctly, the numerator and denominator terms cancel |
| LookupWidget.ComputeQuotientI | plonk-core/src/proof_system/widget/lookup.rs:42-95 | the sum a + b + c + d of the four terms is zero at a point where the lookup gate holds, the grand product steps and z2 starts at one |
| LookupWidget.LinearisationEval | plonk-core/src/proof_system/widget/lookup.rs:98-149 | the linearisation polynomial at `x` is q_lookup(x)*(compress - f)sep + z2(x)*((1+δ)(ε+f)(ε(1+δ)+t+δt_next)sep² + l1 sep³) + h1(x)*(-z2_next sep²)(ε(1+δ)+h2+δh1) |
| LookupWidget.ComputeLinearisationCommitment | plonk-core/src/proof_system/widget/lookup.rs:179-230 | appends exactly the three scalars the source computes, the h1 scalar with its factor sep³, and the commitments q_lookup, z2, h1, in that order, leaving earlier entries unchanged |
| LookupWidget.QLookupScalarAgrees | plonk-core/src/proof_system/widget/lookup.rs:190-197 | the verifier's q_lookup scalar (a - f + ζb + ζ²c + ζ³d)sep equals the prover's coefficient |
| LookupWidget.Z2ScalarAgrees | plonk-core/src/proof_system/widget/lookup.rs:203-213 | the verifier's z2 scalar equals the sum of the prover's two z2 coefficients |
| LookupWidget.H1ScalarAgrees | plonk-core/src/proof_system/widget/lookup.rs:137-143 | with the factor sep², the verifier's h1 scalar equals the prover's h1 coefficient |
| LookupWidget.H1ScalarAsWrittenDisagrees | plonk-core/src/proof_system/widget/lookup.rs:219-226 | the h1 scalar as written, with sep³, differs from the prover's coefficient on a concrete input |
| LookupWidget.VerifierMatchesProver | plonk-core/src/proof_system/widget/lookup.rs:179-230 | with the h1 scalar corrected to sep², and when the commitments are to the prover's polynomials, the three pairs combine to the commitment of the prover's linearisation polynomial |
| LookupWidget.AsWrittenMatchesProverIff | plonk-core/src/proof_system/widget/lookup.rs:179-230 | the three pairs the source pushes combine to the commitment of the prover's linearisation polynomial exactly when h1 vanishes at the setup secret or the sep³ scalar equals the prover's coefficient |
| LookupWidget.AsWrittenMismatch | plonk-core/src/proof_system/widget/lookup.rs:218-227 | with sep = 2, z2_next = 1, ε = 1 and h1 the constant 1, the pairs the source pushes do not combine to the commitment of the prover's linearisation polynomial |
| KzgProof.AggregateProof.WithWitness | src/commitment_scheme/kzg10/proof.rs:49-58 | stores the witness commitment and starts with both lists empty |
| KzgProof.AggregateProof.AddPart | src/commitment_scheme/kzg10/proof.rs:62-65 | appends one evaluation and one commitment. The lists stay in lockstep and the witness is unchanged |
| KzgProof.AggregateProof.Flatten | src/commitment_scheme/kzg10/proof.rs:69-107 | needs at least one part. The witness commitment passes through unchanged |
| KzgProof.FlattenedPointIsHorner | src/commitment_scheme/kzg10/proof.rs:76-99 | the flattened evaluation, sum of c^i * eval_i, is the evaluations read as coefficients and evaluated at the challenge |
| KzgProof.FlattenedCommitmentIsHorner | src/commitment_scheme/kzg10/proof.rs:87-94 | the flattened commitment, sum of c^i * comm_i, is the commitments combined by Horner's rule at the challenge |
| KzgProof.FlattenOpensCombination | src/commitment_scheme/kzg10/proof.rs:69-107 | when each part is the commitment to p_i and p_i(z), the flattened proof carries the commitment to sum c^i p_i and its value at z |
| KzgProof.FlattenSinglePart | src/commitment_scheme/kzg10/proof.rs:76-107 | with one part, the flattened evaluation and commitment are that part's |
| Circuit.FeInto | src/circuit.rs:52-59 | a field element contributes exactly itself |
| Circuit.GeInto | src/circuit.rs:61-68 | an affine point contributes exactly its x and then its y coordinate |
| Circuit.FlattenValuesAppend | src/circuit.rs:385-388 | flattening keeps the inputs' order across a concatenation |
| Circuit.BuildPi | src/circuit.rs:379-394 | with every written position below `trim_size`, the loop over the zipped pairs, which stops at the shorter list, yields the specification vector of `trim_size` entries |
| Circuit.WrittenContents | src/circuit.rs:384-392 | every index no pair writes holds zero, and every written index holds the negated value of the last pair writing there |
| Circuit.BuildPiExample | src/circuit.rs:379-394 | a field input and a point input at positions 3, 0, 3 of four give [-x, 0, 0, -y]: the point's y overwrites the field input |

## Left out

- The transcript (challenge derivation by hashing). Every challenge is a parameter: `flatten`'s "aggregate_witness" challenge, and the δ, ε, ζ and separation challenges of the widgets.
- Circuit orchestration (`compile`, `gen_proof`, `verify_proof`), the prover and verifier drivers, and serialisation. These call code that is not part of this model.
- Elliptic-curve arithmetic. Points are modelled by their discrete logarithms in a group of order `P`. The curve equation, `into_affine`, and therefore `ge_into` for projective points, are not modelled.
- Pairing checks, soundness and zero knowledge.
- `crate::util::lc` and `powers_of` are not part of this model. `lc` is taken to be Horner evaluation at ζ (`LookupWidget.Compress`), and `powers_of(c, k)` to be [1, c, …, c^k] (`KzgProof.Powers`).
- `add_input`, the `variables` map and `perm.add_variables_to_map` are not part of this model. They are modelled as appends:
  - the witness arena is a sequence with new variables at its end;
  - the permutation is the sequence of registrations.
- `StandardComposer::new` is not modelled beyond an empty circuit with one zero variable. The composer's other selector columns, such as `q_lookup`, are also not modelled, since the arithmetic gates do not write them.
- `MultiSet::to_polynomial` (an inverse FFT over an external domain), `to_var_bytes` (serialisation) and `from_slice` (unimplemented in the source) are not modelled.
- Polynomial coefficient vectors are not trimmed of leading zeros. Only their values and commitments are compared.
- MultiSets.MultiSet.Pad: the `u32` cast of the length is not modelled. A multiset of 2^32 or more elements would have its length truncated before the subtraction.
- MultiSets.MultiSet.Pad: the source aborts instead of returning an error. The two aborts (not a power of two, subtraction underflow) are modelled as `Err` values that leave the multiset unchanged.
- MultiSets.MultiSet.SortedHalve: the source's `todo!()` abort for an element of `f` missing from the table is modelled as `Err(ElementNotInTable(x))`.
- The order `sort` uses on field elements is taken to be the order of their canonical integer representatives.
- `halve`, `compress`, `flatten` and `build_pi` abort on inputs the source does not handle (an empty multiset, an empty or ragged slice, no parts, a position out of range). These inputs are preconditions here.
- Composer.StandardComposer.BigAdd: the source indexes the witness map with `a`, `b` and `d` and aborts on a variable the composer did not allocate. Allocated variables are a precondition here; the same holds for `Composer.StandardComposer.BigMul`, `Composer.StandardComposer.Add2` and `Composer.StandardComposer.Mul2`.
- `sorted_halve`'s `HashMap` is a Dafny `map`. Hashing and capacity reservations are not modelled.
- src/proof_system/widget/range.rs is generic over any field. The model fixes a prime field of characteristic above 3, where `delta` vanishes exactly on {0, 1, 2, 3}.

## Findings

| source | as written | input that shows it | evidently intended | confidence | as-written member | corrected member |
|---|---|---|---|---|---|---|
| plonk-core/src/proof_system/widget/lookup.rs:219-226 | the verifier scales its h1 commitment by -z2_next * sep³ * (ε(1+δ) + h2 + δh1) | sep = 2, z2_next = 1, ε = 1, δ = 0, h1 = h2 = 0: the verifier's scalar is -8 where the prover's coefficient (lines 137-143) is -4, and these differ modulo every prime above 3 | -z2_next * sep² * (ε(1+δ) + h2 + δh1), matching the prover's linearisation and quotient | not executed | LookupWidget.VerifierH1ScalarAsWritten, LookupWidget.ComputeLinearisationCommitment, LookupWidget.H1ScalarAsWrittenDisagrees, LookupWidget.AsWrittenMismatch | LookupWidget.VerifierH1Scalar, LookupWidget.IntendedLinearisationScalars, LookupWidget.H1ScalarAgrees, LookupWidget.VerifierMatchesProver |

`LookupWidget.ComputeLinearisationCommitment` pushes the h1 scalar as the source computes it. `LookupWidget.AsWrittenMatchesProverIff` says exactly when those pairs still match the prover. `LookupWidget.VerifierMatchesProver` is stated over the corrected list `LookupWidget.IntendedLinearisationScalars`.
