/**
 * Square matrices with exact real entries, and the operations the BCH sum
 * uses: the product `np.dot`, entry-wise sum, difference and scaling, and
 * the commutator `myComm`.
 */
module Matrices {

  /** A matrix as its sequence of rows. */
  type Matrix = seq<seq<real>>

  /** `A` has `n` rows of `n` entries each. */
  predicate IsSquare(A: Matrix, n: nat) {
    |A| == n && forall r :: 0 <= r < n ==> |A[r]| == n
  }

  /** Every element is an n×n matrix. */
  predicate AllSquare(ms: seq<Matrix>, n: nat) {
    forall i :: 0 <= i < |ms| ==> IsSquare(ms[i], n)
  }

  /** Both operands are square and of the same size. */
  predicate SameSquare(A: Matrix, B: Matrix) {
    IsSquare(A, |A|) && IsSquare(B, |A|)
  }

  /** The n×n zero matrix (`np.zeros((n, n))`). */
  function Zero(n: nat): (z: Matrix)
    ensures IsSquare(z, n)
    ensures forall r, c :: 0 <= r < n && 0 <= c < n ==> z[r][c] == 0.0
  {
    seq(n, _ => seq(n, _ => 0.0))
  }

  /** Entry-wise sum. */
  function Add(A: Matrix, B: Matrix): (s: Matrix)
    requires SameSquare(A, B)
    ensures IsSquare(s, |A|)
    ensures forall r, c :: 0 <= r < |A| && 0 <= c < |A| ==> s[r][c] == A[r][c] + B[r][c]
  {
    seq(|A|, r requires 0 <= r < |A| => seq(|A|, c requires 0 <= c < |A| => A[r][c] + B[r][c]))
  }

  /** Entry-wise difference. */
  function Sub(A: Matrix, B: Matrix): (d: Matrix)
    requires SameSquare(A, B)
    ensures IsSquare(d, |A|)
    ensures forall r, c :: 0 <= r < |A| && 0 <= c < |A| ==> d[r][c] == A[r][c] - B[r][c]
  {
    seq(|A|, r requires 0 <= r < |A| => seq(|A|, c requires 0 <= c < |A| => A[r][c] - B[r][c]))
  }

  /** Every entry multiplied by the scalar `x`. */
  function Scale(x: real, A: Matrix): (s: Matrix)
    requires IsSquare(A, |A|)
    ensures IsSquare(s, |A|)
    ensures forall r, c :: 0 <= r < |A| && 0 <= c < |A| ==> s[r][c] == x * A[r][c]
  {
    seq(|A|, r requires 0 <= r < |A| => seq(|A|, c requires 0 <= c < |A| => x * A[r][c]))
  }

  /** The first `m` terms of the inner product of row `r` of `A` with column `c` of `B`. */
  function Dot(A: Matrix, B: Matrix, r: nat, c: nat, m: nat): real
    requires SameSquare(A, B) && r < |A| && c < |A| && m <= |A|
  {
    if m == 0 then 0.0 else Dot(A, B, r, c, m - 1) + A[r][m - 1] * B[m - 1][c]
  }

  /** The matrix product (`np.dot` on two square matrices). */
  function Mul(A: Matrix, B: Matrix): (p: Matrix)
    requires SameSquare(A, B)
    ensures IsSquare(p, |A|)
    ensures forall r, c :: 0 <= r < |A| && 0 <= c < |A| ==> p[r][c] == Dot(A, B, r, c, |A|)
  {
    seq(|A|, r requires 0 <= r < |A| => seq(|A|, c requires 0 <= c < |A| => Dot(A, B, r, c, |A|)))
  }

  /** The commutator AB − BA (`myComm`). */
  function Comm(A: Matrix, B: Matrix): (k: Matrix)
    requires SameSquare(A, B)
    ensures IsSquare(k, |A|)
    ensures forall r, c :: 0 <= r < |A| && 0 <= c < |A| ==>
      k[r][c] == Dot(A, B, r, c, |A|) - Dot(B, A, r, c, |A|)
  {
    Sub(Mul(A, B), Mul(B, A))
  }

  /** Two n×n matrices with the same entries are equal. */
  lemma SameEntries(A: Matrix, B: Matrix, n: nat)
    requires IsSquare(A, n) && IsSquare(B, n)
    requires forall r, c :: 0 <= r < n && 0 <= c < n ==> A[r][c] == B[r][c]
    ensures A == B
  {
    forall r | 0 <= r < n ensures A[r] == B[r] {
      assert forall c :: 0 <= c < n ==> A[r][c] == B[r][c];
    }
  }

  /** A matrix commutes with itself: [A, A] is the zero matrix. */
  lemma CommSelf(A: Matrix)
    requires IsSquare(A, |A|)
    ensures Comm(A, A) == Zero(|A|)
  {
    SameEntries(Comm(A, A), Zero(|A|), |A|);
  }

  /** Swapping the operands negates the commutator: [A, B] = −[B, A]. */
  lemma CommAntisymmetric(A: Matrix, B: Matrix)
    requires SameSquare(A, B)
    ensures Comm(A, B) == Scale(-1.0, Comm(B, A))
  {
    SameEntries(Comm(A, B), Scale(-1.0, Comm(B, A)), |A|);
  }

  /** The commutator vanishes exactly when the two matrices commute. */
  lemma CommZeroIffCommute(A: Matrix, B: Matrix)
    requires SameSquare(A, B)
    ensures Comm(A, B) == Zero(|A|) <==> Mul(A, B) == Mul(B, A)
  {
    if Mul(A, B) == Mul(B, A) {
      SameEntries(Comm(A, B), Zero(|A|), |A|);
    }
    if Comm(A, B) == Zero(|A|) {
      forall r, c | 0 <= r < |A| && 0 <= c < |A| ensures Mul(A, B)[r][c] == Mul(B, A)[r][c] {
        assert Comm(A, B)[r][c] == 0.0;
      }
      SameEntries(Mul(A, B), Mul(B, A), |A|);
    }
  }

  /** Scaling the zero matrix leaves it zero. */
  lemma ScaleZero(x: real, n: nat)
    ensures Scale(x, Zero(n)) == Zero(n)
  {
    SameEntries(Scale(x, Zero(n)), Zero(n), n);
  }

  /** Adding to the zero matrix leaves a matrix unchanged. */
  lemma AddZeroLeft(A: Matrix)
    requires IsSquare(A, |A|)
    ensures Add(Zero(|A|), A) == A
  {
    SameEntries(Add(Zero(|A|), A), A, |A|);
  }

  /** A scaled commutator with swapped operands is the commutator scaled by the negated factor. */
  lemma ScaledCommSwap(x: real, A: Matrix, B: Matrix)
    requires SameSquare(A, B)
    ensures Scale(x, Comm(B, A)) == Scale(-x, Comm(A, B))
  {
    SameEntries(Scale(x, Comm(B, A)), Scale(-x, Comm(A, B)), |A|);
  }
}
