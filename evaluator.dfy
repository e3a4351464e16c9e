/**
 * Evaluation of the basis: starting from [X, Y], each pair [k, j] appends
 * its coefficient times the commutator of elements k and j (1-based).
 */
module CommutatorEvaluator {
  import opened Failures
  import opened Matrices
  import opened PairGenerator

  /**
   * Python list indexing: an index in -len..len-1 is valid and a negative one
   * counts from the end; anything else raises IndexError.
   */
  function PyIndex(len: nat, idx: int): (r: Option<nat>)
    ensures r.Some? <==> -(len as int) <= idx < len
    ensures r.Some? ==> r.value < len && (r.value == idx || r.value == len + idx)
  {
    if 0 <= idx < len then Some(idx)
    else if -(len as int) <= idx < 0 then Some(len + idx)
    else None
  }

  /**
   * One turn of the loop for pair number `p`: `coeffs[p]` is read first, then
   * `soln[k-1]`, then `soln[j-1]`; the new element is appended.
   */
  function Extend(soln: seq<Matrix>, pr: Pair, coeffs: seq<real>, p: nat, n: nat): (r: Result<seq<Matrix>>)
    requires AllSquare(soln, n)
    ensures r.Ok? ==> |r.value| == |soln| + 1 && r.value[..|soln|] == soln && AllSquare(r.value, n)
  {
    if p >= |coeffs| then Err(CoefficientMissing(p))
    else match PyIndex(|soln|, pr.k - 1)
      case None => Err(IndexOutOfRange(pr.k - 1))
      case Some(a) =>
        match PyIndex(|soln|, pr.j - 1)
        case None => Err(IndexOutOfRange(pr.j - 1))
        case Some(b) => Ok(soln + [Scale(coeffs[p], Comm(soln[a], soln[b]))])
  }

  /** The list `soln` after the first `m` pairs have been evaluated, or the failure that stopped it. */
  function Elements(X: Matrix, Y: Matrix, pairs: seq<Pair>, coeffs: seq<real>, m: nat): (r: Result<seq<Matrix>>)
    requires SameSquare(X, Y) && m <= |pairs|
    ensures r.Ok? ==> |r.value| == m + 2 && r.value[0] == X && r.value[1] == Y && AllSquare(r.value, |X|)
    decreases m
  {
    if m == 0 then Ok([X, Y])
    else match Elements(X, Y, pairs, coeffs, m - 1)
      case Err(f) => Err(f)
      case Ok(soln) => Extend(soln, pairs[m - 1], coeffs, m - 1, |X|)
  }

  /** The evaluation loop over `pairs`, appending to `soln`. */
  method Evaluate(X: Matrix, Y: Matrix, pairs: seq<Pair>, coeffs: seq<real>) returns (r: Result<seq<Matrix>>)
    requires SameSquare(X, Y)
    ensures r == Elements(X, Y, pairs, coeffs, |pairs|)
  {
    var soln := [X, Y];
    for p := 0 to |pairs|
      invariant Elements(X, Y, pairs, coeffs, p) == Ok(soln)
    {
      var a := pairs[p].k;
      var b := pairs[p].j;
      ElementsNext(X, Y, pairs, coeffs, p, soln);
      if p >= |coeffs| {
        r := Err(CoefficientMissing(p));
        FailureStays(X, Y, pairs, coeffs, p + 1, |pairs|);
        return;
      }
      var ia := PyIndex(|soln|, a - 1);
      if ia.None? {
        r := Err(IndexOutOfRange(a - 1));
        FailureStays(X, Y, pairs, coeffs, p + 1, |pairs|);
        return;
      }
      var ib := PyIndex(|soln|, b - 1);
      if ib.None? {
        r := Err(IndexOutOfRange(b - 1));
        FailureStays(X, Y, pairs, coeffs, p + 1, |pairs|);
        return;
      }
      soln := soln + [Scale(coeffs[p], Comm(soln[ia.value], soln[ib.value]))];
    }
    return Ok(soln);
  }

  /** Element `e` of `s` is `x` times the commutator of the 1-based elements `pr.k` and `pr.j`, both earlier. */
  predicate DefinedBy(s: seq<Matrix>, e: nat, pr: Pair, x: real) {
    && e < |s| && 1 <= pr.k <= e && 1 <= pr.j <= e
    && SameSquare(s[pr.k - 1], s[pr.j - 1])
    && s[e] == Scale(x, Comm(s[pr.k - 1], s[pr.j - 1]))
  }

  /** Evaluating pair `p` extends the elements built from the first `p` pairs. */
  lemma ElementsNext(X: Matrix, Y: Matrix, pairs: seq<Pair>, coeffs: seq<real>, p: nat, soln: seq<Matrix>)
    requires SameSquare(X, Y) && p < |pairs|
    requires Elements(X, Y, pairs, coeffs, p) == Ok(soln)
    ensures AllSquare(soln, |X|)
    ensures Elements(X, Y, pairs, coeffs, p + 1) == Extend(soln, pairs[p], coeffs, p, |X|)
  {
  }

  /** Once evaluation has failed, it stays failed with the same failure. */
  lemma {:induction false} FailureStays(X: Matrix, Y: Matrix, pairs: seq<Pair>, coeffs: seq<real>, p: nat, m: nat)
    requires SameSquare(X, Y) && p <= m <= |pairs|
    requires Elements(X, Y, pairs, coeffs, p).Err?
    ensures Elements(X, Y, pairs, coeffs, m) == Elements(X, Y, pairs, coeffs, p)
    decreases m - p
  {
    if p < m {
      FailureStays(X, Y, pairs, coeffs, p + 1, m);
    }
  }

  /**
   * For pairs that refer only to earlier elements, evaluation succeeds exactly
   * when there is a coefficient for every pair; otherwise it fails at the first
   * missing coefficient.
   */
  lemma {:induction false} WellFormedPairsSucceed(X: Matrix, Y: Matrix, pairs: seq<Pair>, coeffs: seq<real>, m: nat)
    requires SameSquare(X, Y) && m <= |pairs| && Refers(pairs)
    ensures Elements(X, Y, pairs, coeffs, m).Ok? <==> m <= |coeffs|
    ensures m > |coeffs| ==> Elements(X, Y, pairs, coeffs, m) == Err(CoefficientMissing(|coeffs|))
  {
    if m > 0 {
      WellFormedPairsSucceed(X, Y, pairs, coeffs, m - 1);
      var prev := Elements(X, Y, pairs, coeffs, m - 1);
      if prev.Ok? && m - 1 < |coeffs| {
        var pr := pairs[m - 1];
        assert 1 <= pr.j < pr.k <= m + 1;
        assert PyIndex(m + 1, pr.k - 1) == Some(pr.k - 1);
        assert PyIndex(m + 1, pr.j - 1) == Some(pr.j - 1);
      }
    }
  }

  /** The first `m` derived elements of `s` are defined by the first `m` pairs and coefficients. */
  predicate DefinedUpTo(s: seq<Matrix>, pairs: seq<Pair>, coeffs: seq<real>, m: nat)
    requires m <= |pairs| && m <= |coeffs|
  {
    forall p :: 0 <= p < m ==> DefinedBy(s, p + 2, pairs[p], coeffs[p])
  }

  /**
   * For pairs that refer only to earlier elements, every derived element is its
   * coefficient times the commutator of the two elements its pair names.
   */
  lemma {:induction false} ElementsMeaning(X: Matrix, Y: Matrix, pairs: seq<Pair>, coeffs: seq<real>, m: nat)
    requires SameSquare(X, Y) && m <= |pairs| && Refers(pairs)
    requires m <= |coeffs|
    ensures Elements(X, Y, pairs, coeffs, m).Ok?
    ensures DefinedUpTo(Elements(X, Y, pairs, coeffs, m).value, pairs, coeffs, m)
  {
    if m > 0 {
      var p := m - 1;
      WellFormedPairsSucceed(X, Y, pairs, coeffs, p);
      ElementsMeaning(X, Y, pairs, coeffs, p);
      var s := Elements(X, Y, pairs, coeffs, p).value;
      var x := NextElement(X, Y, pairs, coeffs, p);
      AppendKeepsDefined(s, x, pairs, coeffs, p);
    }
  }

  /** Evaluating pair `p` of well-formed pairs appends the element that pair defines. */
  lemma NextElement(X: Matrix, Y: Matrix, pairs: seq<Pair>, coeffs: seq<real>, p: nat) returns (x: Matrix)
    requires SameSquare(X, Y) && p < |pairs| && Refers(pairs)
    requires p < |coeffs| && Elements(X, Y, pairs, coeffs, p).Ok?
    ensures Elements(X, Y, pairs, coeffs, p + 1) == Ok(Elements(X, Y, pairs, coeffs, p).value + [x])
    ensures DefinedBy(Elements(X, Y, pairs, coeffs, p).value + [x], p + 2, pairs[p], coeffs[p])
  {
    var s := Elements(X, Y, pairs, coeffs, p).value;
    var pr := pairs[p];
    assert 1 <= pr.j < pr.k <= p + 2;
    assert PyIndex(p + 2, pr.k - 1) == Some(pr.k - 1);
    assert PyIndex(p + 2, pr.j - 1) == Some(pr.j - 1);
    x := Scale(coeffs[p], Comm(s[pr.k - 1], s[pr.j - 1]));
    assert Extend(s, pr, coeffs, p, |X|) == Ok(s + [x]);
  }

  /** Appending an element leaves the earlier elements' definitions intact. */
  lemma AppendKeepsDefined(s: seq<Matrix>, x: Matrix, pairs: seq<Pair>, coeffs: seq<real>, m: nat)
    requires m < |pairs| && m < |coeffs|
    requires DefinedUpTo(s, pairs, coeffs, m)
    requires DefinedBy(s + [x], m + 2, pairs[m], coeffs[m])
    ensures DefinedUpTo(s + [x], pairs, coeffs, m + 1)
  {
    forall p | 0 <= p < m + 1 ensures DefinedBy(s + [x], p + 2, pairs[p], coeffs[p]) {
      if p < m {
        assert DefinedBy(s, p + 2, pairs[p], coeffs[p]);
        assert (s + [x])[p + 2] == s[p + 2];
      }
    }
  }

  /** With X and Y both zero, every element evaluation produces is zero. */
  lemma {:induction false} ElementsOfZero(n: nat, pairs: seq<Pair>, coeffs: seq<real>, m: nat)
    requires m <= |pairs|
    ensures var r := Elements(Zero(n), Zero(n), pairs, coeffs, m);
      r.Ok? ==> forall i :: 0 <= i < |r.value| ==> r.value[i] == Zero(n)
  {
    if m > 0 {
      ElementsOfZero(n, pairs, coeffs, m - 1);
      var prev := Elements(Zero(n), Zero(n), pairs, coeffs, m - 1);
      if prev.Ok? && Elements(Zero(n), Zero(n), pairs, coeffs, m).Ok? {
        CommSelf(Zero(n));
        ScaleZero(coeffs[m - 1], n);
      }
    }
  }
}
