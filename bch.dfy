/**
 * The whole computation of the program: build the order tables, check the
 * dimensions, generate the pairs up to the expansion order, evaluate the basis
 * elements and sum them into Z.
 */
module Bch {
  import opened Failures
  import opened OrderIndex
  import opened Matrices
  import opened PairGenerator
  import opened CommutatorEvaluator
  import opened Accumulator

  /** The expansion order the program is fixed to. */
  const Order: int := 5

  /** Z for square inputs X and Y and coefficient list `coeffs`, truncated at `order`, or the failure. */
  function Series(X: Matrix, Y: Matrix, coeffs: seq<real>, order: int): (r: Result<Matrix>)
    requires IsSquare(X, |X|) && IsSquare(Y, |Y|)
    ensures r.Ok? ==> |X| == |Y| && IsSquare(r.value, |X|)
  {
    if |X| != |Y| then Err(DimensionMismatch(|X|, |Y|))
    else match Generate(OrderTable(), LenTable(), order)
      case Err(f) => Err(f)
      case Ok(pairs) =>
        match Elements(X, Y, pairs, coeffs, |pairs|)
        case Err(f) => Err(f)
        case Ok(soln) => Ok(Sum(soln, |X|))
  }

  /** The steps of the program in their order, each by its own loop. */
  method Compute(X: Matrix, Y: Matrix, coeffs: seq<real>) returns (r: Result<Matrix>)
    requires IsSquare(X, |X|) && IsSquare(Y, |Y|)
    ensures r == Series(X, Y, coeffs, Order)
  {
    var isFirst, lenOf := InitDict();
    if |X| != |Y| {
      return Err(DimensionMismatch(|X|, |Y|));
    }
    var generated := GeneratePairs(isFirst, lenOf, Order);
    if generated.Err? {
      return Err(generated.failure);
    }
    var pairs := generated.value;
    var evaluated := Evaluate(X, Y, pairs, coeffs);
    if evaluated.Err? {
      return Err(evaluated.failure);
    }
    var z := SumAll(evaluated.value, |X|);
    return Ok(z);
  }

  /**
   * At order 5 the run fails on differing dimensions first, then on a
   * coefficient list shorter than the 12 pairs, naming the first missing
   * index; otherwise Z is the sum of X, Y and the 12 derived elements, each
   * its coefficient times the commutator its pair names.
   */
  lemma OrderFiveOutcome(X: Matrix, Y: Matrix, coeffs: seq<real>)
    requires IsSquare(X, |X|) && IsSquare(Y, |Y|)
    ensures |X| != |Y| ==> Series(X, Y, coeffs, Order) == Err(DimensionMismatch(|X|, |Y|))
    ensures Series(X, Y, coeffs, Order).Ok? <==> |X| == |Y| && |coeffs| >= 12
    ensures |X| == |Y| && |coeffs| < 12 ==> Series(X, Y, coeffs, Order) == Err(CoefficientMissing(|coeffs|))
    ensures |X| == |Y| && |coeffs| >= 12 ==>
      && Elements(X, Y, OrderFivePairs, coeffs, 12).Ok?
      && Series(X, Y, coeffs, Order) == Ok(Sum(Elements(X, Y, OrderFivePairs, coeffs, 12).value, |X|))
      && DefinedUpTo(Elements(X, Y, OrderFivePairs, coeffs, 12).value, OrderFivePairs, coeffs, 12)
  {
    if |X| == |Y| {
      GenerateOrderFive();
      GenerateWellFormed(OrderTable(), LenTable(), Order);
      WellFormedPairsSucceed(X, Y, OrderFivePairs, coeffs, 12);
      if |coeffs| >= 12 {
        ElementsMeaning(X, Y, OrderFivePairs, coeffs, 12);
      }
    }
  }

  /** With X = Y = 0, a successful run gives Z = 0 whatever the coefficients and the order. */
  lemma ZeroInputs(n: nat, coeffs: seq<real>, order: int)
    ensures Series(Zero(n), Zero(n), coeffs, order).Ok? ==> Series(Zero(n), Zero(n), coeffs, order).value == Zero(n)
  {
    var g := Generate(OrderTable(), LenTable(), order);
    if g.Ok? {
      ElementsOfZero(n, g.value, coeffs, |g.value|);
      var e := Elements(Zero(n), Zero(n), g.value, coeffs, |g.value|);
      if e.Ok? {
        SumOfZeros(e.value, n);
      }
    }
  }

  /** Truncated at order 2, Z = X + Y + c0·[Y, X] = X + Y − c0·[X, Y]. */
  lemma OrderTwo(X: Matrix, Y: Matrix, coeffs: seq<real>)
    requires SameSquare(X, Y) && |coeffs| >= 1
    ensures Series(X, Y, coeffs, 2) == Ok(Add(Add(X, Y), Scale(coeffs[0], Comm(Y, X))))
    ensures Series(X, Y, coeffs, 2) == Ok(Add(Add(X, Y), Scale(-coeffs[0], Comm(X, Y))))
  {
    OrderTwoPairs();
    var w := FirstBracket(X, Y, coeffs);
    SumOfThree(X, Y, w);
    ScaledCommSwap(coeffs[0], X, Y);
  }

  /** Order 2 has the single pair [2, 1]. */
  lemma OrderTwoPairs()
    ensures Generate(OrderTable(), LenTable(), 2) == Ok([Pair(2, 1)])
  {
    GenerateOrderFive();
    assert OrderFivePairs[..1] == [Pair(2, 1)];
  }

  /** The single pair of order 2 appends c0·[Y, X] to [X, Y]. */
  lemma FirstBracket(X: Matrix, Y: Matrix, coeffs: seq<real>) returns (w: Matrix)
    requires SameSquare(X, Y) && |coeffs| >= 1
    ensures w == Scale(coeffs[0], Comm(Y, X))
    ensures Elements(X, Y, [Pair(2, 1)], coeffs, 1) == Ok([X, Y, w])
  {
    w := Scale(coeffs[0], Comm(Y, X));
    assert Elements(X, Y, [Pair(2, 1)], coeffs, 0) == Ok([X, Y]);
    assert PyIndex(2, 1) == Some(1) && PyIndex(2, 0) == Some(0);
    assert Extend([X, Y], Pair(2, 1), coeffs, 0, |X|) == Ok([X, Y] + [w]);
    assert [X, Y] + [w] == [X, Y, w];
  }

  /** Summing three matrices from zero adds them up in order. */
  lemma SumOfThree(X: Matrix, Y: Matrix, W: Matrix)
    requires IsSquare(X, |X|) && IsSquare(Y, |X|) && IsSquare(W, |X|)
    ensures AllSquare([X, Y, W], |X|)
    ensures Sum([X, Y, W], |X|) == Add(Add(X, Y), W)
  {
    SumOfTwo(X, Y);
    SumSnoc([X, Y], W, |X|);
    assert [X, Y] + [W] == [X, Y, W];
  }

  /** Summing two matrices from zero adds them up. */
  lemma SumOfTwo(X: Matrix, Y: Matrix)
    requires IsSquare(X, |X|) && IsSquare(Y, |X|)
    ensures AllSquare([X, Y], |X|)
    ensures Sum([X, Y], |X|) == Add(X, Y)
  {
    AddZeroLeft(X);
    SumSnoc([], X, |X|);
    assert [] + [X] == [X];
    SumSnoc([X], Y, |X|);
    assert [X] + [Y] == [X, Y];
  }

  /** The raising generator of sl(2). */
  const Raise: Matrix := [[0.0, 1.0], [0.0, 0.0]]

  /** The lowering generator of sl(2). */
  const Lower: Matrix := [[0.0, 0.0], [1.0, 0.0]]

  /** For the sl(2) generators at order 2, Z = [[-c0, 1], [1, c0]]. */
  lemma RaiseLowerOrderTwo(coeffs: seq<real>)
    requires |coeffs| >= 1
    ensures Series(Raise, Lower, coeffs, 2) == Ok([[-coeffs[0], 1.0], [1.0, coeffs[0]]])
  {
    RaiseLowerSquare();
    OrderTwo(Raise, Lower, coeffs);
    LowerRaiseBracket();
    RaiseLowerTotal(coeffs[0]);
  }

  lemma RaiseLowerSquare()
    ensures SameSquare(Raise, Lower) && |Raise| == 2
  {
  }

  /** [Lower, Raise] is the diagonal matrix diag(-1, 1). */
  lemma LowerRaiseBracket()
    ensures Comm(Lower, Raise) == [[-1.0, 0.0], [0.0, 1.0]]
  {
    RaiseLowerSquare();
    LowerTimesRaise();
    RaiseTimesLower();
    SameEntries(Sub([[0.0, 0.0], [0.0, 1.0]], [[1.0, 0.0], [0.0, 0.0]]), [[-1.0, 0.0], [0.0, 1.0]], 2);
  }

  lemma LowerTimesRaise()
    ensures Mul(Lower, Raise) == [[0.0, 0.0], [0.0, 1.0]]
  {
    RaiseLowerSquare();
    var p := Mul(Lower, Raise);
    DotOfTwo(Lower, Raise, 0, 0);
    DotOfTwo(Lower, Raise, 0, 1);
    DotOfTwo(Lower, Raise, 1, 0);
    DotOfTwo(Lower, Raise, 1, 1);
    assert p[0][0] == 0.0 && p[0][1] == 0.0 && p[1][0] == 0.0 && p[1][1] == 1.0;
    SameEntries(p, [[0.0, 0.0], [0.0, 1.0]], 2);
  }

  lemma RaiseTimesLower()
    ensures Mul(Raise, Lower) == [[1.0, 0.0], [0.0, 0.0]]
  {
    RaiseLowerSquare();
    var p := Mul(Raise, Lower);
    DotOfTwo(Raise, Lower, 0, 0);
    DotOfTwo(Raise, Lower, 0, 1);
    DotOfTwo(Raise, Lower, 1, 0);
    DotOfTwo(Raise, Lower, 1, 1);
    assert p[0][0] == 1.0 && p[0][1] == 0.0 && p[1][0] == 0.0 && p[1][1] == 0.0;
    SameEntries(p, [[1.0, 0.0], [0.0, 0.0]], 2);
  }

  /** An entry of a 2×2 product. */
  lemma DotOfTwo(A: Matrix, B: Matrix, r: nat, c: nat)
    requires SameSquare(A, B) && |A| == 2 && r < 2 && c < 2
    ensures Dot(A, B, r, c, 2) == A[r][0] * B[0][c] + A[r][1] * B[1][c]
  {
    assert Dot(A, B, r, c, 0) == 0.0;
  }

  /** X + Y + c·diag(-1, 1) for the sl(2) generators. */
  lemma RaiseLowerTotal(c: real)
    ensures Add(Add(Raise, Lower), Scale(c, [[-1.0, 0.0], [0.0, 1.0]])) == [[-c, 1.0], [1.0, c]]
  {
    SameEntries(Add(Add(Raise, Lower), Scale(c, [[-1.0, 0.0], [0.0, 1.0]])), [[-c, 1.0], [1.0, c]], 2);
  }
}
