# Truncated Baker–Campbell–Hausdorff series in the Hall basis, in Dafny

`bch.py` approximates Z = log(e^X e^Y) for two square matrices X and Y. It
expands Z in the P. Hall basis of the free Lie algebra, truncated at order 5.
The computation has four steps, and each has a module here:

- **OrderIndex** (`order_index.dfy`): `init_dict` builds two tables over the
  basis-element indices up to 179. `order_dict[i]` says whether index i opens
  a new order; `len_dict[i]` is the order (bracket degree) of index i.
  `InitDict` keeps the source's loop and running counter and is proved to
  return the closed-form tables `OrderTable()` and `LenTable()`.
- **PairGenerator** (`pair_generator.dfy`): the triple loop builds the pairs
  `[k, j]`. Each pair defines the next basis element as the commutator of
  elements k and j. `GeneratePairs` keeps the loops and the cursor `i`. It is
  proved equal to the recursive specification `Generate`, and a missing table
  key (Python's `KeyError`) is an `Err` result. For the tables of `init_dict`,
  orders 2 to 5 give exactly the twelve pairs `OrderFivePairs`.
- **CommutatorEvaluator** (`evaluator.dfy`, with `myComm` in
  `matrices.dfy`): starting from `soln = [X, Y]`, each pair appends
  `coeffs[p]·[soln[k-1], soln[j-1]]`. Indexing follows Python list rules.
  A short coefficient list or an index out of range is an `Err` result.
- **Accumulator** (`accumulator.dfy`): Z starts as the zero matrix, and every
  element of `soln` is added to it in order.

`bch.dfy` puts the steps together in the order of `main`: tables, then the
dimension check, then pairs, evaluation and the sum. Matrices are
`seq<seq<real>>` with exact real arithmetic. The coefficient list is an
input.

## Model

| member | source | states |
|---|---|---|
| OrderIndex.InitDict | bch.py:59-83 | The loop returns exactly `OrderTable()`, with keys 2..179, each flagged when it is in the first-of-order list. It also returns exactly `LenTable()`, with keys 1..179, each mapped to the running count of order starts (index 1 mapped to 1). |
| OrderIndex.DegreeStep | bch.py:74-81 | The running counter `j` goes up by one exactly at the indices in the first-of-order list, and it is 0 up to index 1. |
| OrderIndex.FirstOfOrderIncreasing | bch.py:71 | The first-of-order list is strictly increasing. |
| OrderIndex.DegreeMonotone | bch.py:74-81 | The order of an index never decreases as the index grows. |
| OrderIndex.DegreeRange | bch.py:71-81 | Every order in `len_dict` lies in 1..10, and an index has order 10 exactly when it is 128 or above. |
| OrderIndex.DegreeWithin | bch.py:71-81 | An index from the n-th order start up to, not including, the (n+1)-th has order n. |
| OrderIndex.FirstMarksStep | bch.py:71-81 | From index 3 on, an index is flagged exactly when its order differs from its predecessor's. Index 2 is flagged although its order equals index 1's. |
| OrderIndex.TablesAgree | bch.py:72-83 | Gives the key sets of both tables and `len_dict[1] == 1`. Each flag is membership in the first-of-order list, and for 3..179 a flag is set exactly when `len_dict` changes. |
| PairGenerator.Consider | bch.py:132-138 | One candidate either leaves the pairs unchanged or appends `[k, j]`. It appends exactly when the orders of j and k sum to n and, for j = 1, k opens an order. The contract does not speak of failures. The body fixes the lookup order for `KeyError` as Python evaluates lines 132-133: j, then k, then the flag of k. |
| PairGenerator.GeneratePairs | bch.py:128-138 | The triple loop, whose bounds are fixed when each loop starts, returns `Generate(...)`. On success every pair `[k, j]` at position p has 1 ≤ j < k ≤ p + 2, so it refers to existing elements. Each pair is accepted at some degree 2..order, and degrees never decrease. |
| PairGenerator.GenerateWellFormed | bch.py:128-138 | Order ≤ 1 gives no pairs. Any successful generation, for any tables, refers only to earlier elements and is graded by degree. |
| PairGenerator.SmallTable | bch.py:71-81 | The orders and flags of indices 1..14 in the tables of `init_dict`. |
| PairGenerator.DegreesUpToFive | bch.py:128-138 | For any tables that agree with `init_dict` on indices 1..14, orders 2, 3, 4 and 5 give exactly the first 1, 3, 6 and 12 of `OrderFivePairs`. After degree n the cursor stands at the next order start. |
| PairGenerator.GenerateOrderFive | bch.py:128-138 | With the tables of `init_dict`, order 5 gives the twelve pairs [2,1], [3,1], [3,2], [4,1], [4,2], [5,2], [6,1], [6,2], [7,2], [8,2], [4,3], [5,3], and no lookup misses. The cursor after degree n equals the start of order n + 1 (4, 6, 9, 15 for n = 2..5). |
| Matrices.Zero | bch.py:152 | `np.zeros((n, n))`: an n×n matrix whose every entry is 0. |
| Matrices.Mul | bch.py:99 | `np.dot` on two same-size square matrices: an n×n matrix whose entry (r, c) is the inner product of row r of A with column c of B. |
| Matrices.Comm | bch.py:85-99 | `myComm`: for two same-size square matrices, an n×n matrix whose entry (r, c) is entry (r, c) of AB minus entry (r, c) of BA. |
| Matrices.CommSelf | bch.py:85-99 | `myComm(A, A)` is the zero matrix. |
| Matrices.CommAntisymmetric | bch.py:99 | `myComm(A, B) = −myComm(B, A)`. |
| Matrices.CommZeroIffCommute | bch.py:85-99 | The commutator is zero exactly when A·B = B·A: zero for commuting values, as the docstring promises, and only for them. |
| Matrices.ScaledCommSwap | bch.py:99 | c·[B, A] = (−c)·[A, B]. |
| Matrices.AddZeroLeft | bch.py:152-154 | Adding a matrix to the zero matrix gives that matrix. |
| Matrices.ScaleZero | bch.py:149 | Any coefficient times the zero matrix is zero. |
| CommutatorEvaluator.PyIndex | bch.py:147-149 | Python list indexing: an index is valid exactly in −len..len−1, and a valid index denotes the position itself or, when negative, len plus it. |
| CommutatorEvaluator.Elements | bch.py:141-149 | After m pairs, a successful evaluation holds m + 2 elements, starting with X and Y, all n×n. |
| CommutatorEvaluator.Evaluate | bch.py:141-149 | The loop returns `Elements` over all the pairs. The first failing lookup ends the run: `coeffs[p]` first, then `soln[k-1]`, then `soln[j-1]`. |
| CommutatorEvaluator.FailureStays | bch.py:141-149 | A failure at some pair is the final outcome, with the same failure. |
| CommutatorEvaluator.WellFormedPairsSucceed | bch.py:141-149 | For pairs that refer only to earlier elements, evaluation succeeds exactly when there is a coefficient for every pair. With too few it fails at the first missing coefficient index. |
| CommutatorEvaluator.ElementsMeaning | bch.py:145-149 | For such pairs, the element defined by pair p is `coeffs[p]` times the commutator of elements k and j, both earlier in the list. |
| CommutatorEvaluator.ElementsOfZero | bch.py:141-149 | With X = Y = 0, every element produced is zero. |
| Accumulator.SumAll | bch.py:152-154 | The loop returns `Sum(soln, n)`: the zero matrix plus every element, in list order. |
| Accumulator.SumSnoc | bch.py:153-154 | One more iteration adds the next element to the running total. |
| Accumulator.SumIsEntrywise | bch.py:152-154 | Every entry of Z is the sum of that entry over all elements of `soln`. |
| Accumulator.SumPermutation | bch.py:152-154 | Any reordering of the summands gives the same Z. |
| Accumulator.SumOfZeros | bch.py:152-154 | Summing only zero matrices gives the zero matrix. |
| Bch.Series | bch.py:120-154 | A successful run has equal dimensions, and Z is n×n. |
| Bch.Compute | bch.py:101-154 | `main` with order 5 returns `Series(X, Y, coeffs, 5)`. It builds the tables, checks the dimensions, generates the pairs, evaluates them and sums, stopping at the first failure. |
| Bch.OrderFiveOutcome | bch.py:101-154 | At order 5, differing dimensions fail first. Otherwise the run succeeds exactly when there are at least 12 coefficients, and with fewer it fails at the first missing index. On success Z is the sum of X, Y and twelve elements, each defined by its pair and coefficient. |
| Bch.ZeroInputs | bch.py:101-154 | For X = Y = 0, a successful run gives Z = 0 for any coefficients and any order. |
| Bch.OrderTwo | bch.py:128-154 | Truncated at order 2, Z = X + Y + c0·[Y, X] = X + Y − c0·[X, Y]. |
| Bch.FirstBracket | bch.py:145-149 | The single order-2 pair [2, 1] appends c0·[Y, X] to [X, Y]. |
| Bch.SumOfTwo | bch.py:152-154 | Summing [X, Y] from zero gives X + Y. |
| Bch.SumOfThree | bch.py:152-154 | Summing [X, Y, W] from zero gives (X + Y) + W. |
| Bch.LowerRaiseBracket | bch.py:99 | For the sl(2) generators, [Lower, Raise] = diag(−1, 1). |
| Bch.RaiseLowerOrderTwo | bch.py:128-154 | For the sl(2) generators [[0,1],[0,0]] and [[0,0],[1,0]] at order 2, Z = [[−c0, 1], [1, c0]]. |

## Notes on the source

- **Flags at index 2.** The docstring of `init_dict` (bch.py:66-67) says
  `order_dict[i]` is True when i is the first of the next order. Index 2 is
  flagged although its order equals index 1's (both are 1). `FirstMarksStep`
  proves that from index 3 on a flag marks exactly a change of order, and
  that index 2 is the exception.
- **Negative indices.** A pair with −len(soln) < k ≤ 0 (likewise j) makes
  `soln[k-1]` or `soln[j-1]` (bch.py:149) read from the end of the list, as
  Python list indexing does, and raise nothing; a smaller index raises
  `IndexError`. `PyIndex` models both. Generated
  pairs never use it, since `GeneratePairs` proves 1 ≤ j < k ≤ p + 2.
- **Shapes in the sum.** bch.py has no explicit shape check before
  `Z += soln[i]` (bch.py:154). Every element is n×n by construction
  (`Elements`), so a shape mismatch cannot arise there.
- **Order 10.** The docstring of `init_dict` (bch.py:60) says it is coded up
  to order 9. The table assigns order 10 to indices 128..179 (`DegreeRange`).

## Left out

- Command-line parsing, reading X and Y with `np.loadtxt`, the `print` of Z,
  and the timing with `clock` are I/O and are not modelled.
- `bch_coeff.get_coeff` is not part of this model. The coefficient list is
  an input (`coeffs`).
- Floating point is not modelled. The source reads `float128`, sums into a
  `float` (64-bit) matrix and rounds at each step. The model uses exact
  reals.
- Bch.Series: requires X and Y to be square. The source only asserts equal
  row counts, so non-square, one-dimensional or scalar inputs and NumPy
  broadcasting are not modelled.
- Bch.Compute: requires square X and Y for the same reason. The failed
  `assert` is the result `Err(DimensionMismatch)`, not an exception.
- The `KeyError`, `IndexError` and `AssertionError` exceptions are modelled
  as `Err` results that end the run.
- `soln.append` and `Z += soln[i]` are modelled as reassigning a sequence
  value. Both are local objects that nothing else aliases.
- Whether the truncated series approximates log(e^X e^Y), and whether the
  generated pairs form a Hall basis, are mathematical claims about the method
  and are not modelled. The source itself says the generator is not accurate
  above order 5.
