/**
 * The final summation: Z starts as the n×n zero matrix and every element of
 * `soln` is added to it in list order.
 */
module Accumulator {
  import opened Matrices

  /** The running total after adding `ms` in order to the zero matrix. */
  function Sum(ms: seq<Matrix>, n: nat): (z: Matrix)
    requires AllSquare(ms, n)
    ensures IsSquare(z, n)
    decreases |ms|
  {
    if ms == [] then Zero(n) else Add(Sum(ms[..|ms| - 1], n), ms[|ms| - 1])
  }

  /** The sum of entry (r, c) over all of `ms`, taken from the front. */
  function EntrySum(ms: seq<Matrix>, n: nat, r: nat, c: nat): real
    requires AllSquare(ms, n) && r < n && c < n
    decreases |ms|
  {
    if ms == [] then 0.0 else ms[0][r][c] + EntrySum(ms[1..], n, r, c)
  }

  /** The summation loop of the program. */
  method SumAll(soln: seq<Matrix>, n: nat) returns (z: Matrix)
    requires AllSquare(soln, n)
    ensures z == Sum(soln, n)
    ensures IsSquare(z, n)
  {
    z := Zero(n);
    for i := 0 to |soln|
      invariant z == Sum(soln[..i], n)
    {
      assert soln[..i + 1][..i] == soln[..i];
      z := Add(z, soln[i]);
    }
    assert soln[..|soln|] == soln;
  }

  /** Appending a matrix to the summands adds it to the total. */
  lemma SumSnoc(ms: seq<Matrix>, x: Matrix, n: nat)
    requires AllSquare(ms, n) && IsSquare(x, n)
    ensures AllSquare(ms + [x], n)
    ensures Sum(ms + [x], n) == Add(Sum(ms, n), x)
  {
    assert AllSquare(ms + [x], n) by {
      forall i | 0 <= i < |ms + [x]| ensures IsSquare((ms + [x])[i], n) {
        if i < |ms| { assert (ms + [x])[i] == ms[i]; }
      }
    }
    assert (ms + [x])[..|ms|] == ms;
  }

  /** Adding one more matrix at the end adds its entry to every entry sum. */
  lemma {:induction false} EntrySumSnoc(ms: seq<Matrix>, x: Matrix, n: nat, r: nat, c: nat)
    requires AllSquare(ms, n) && IsSquare(x, n) && r < n && c < n
    ensures AllSquare(ms + [x], n)
    ensures EntrySum(ms + [x], n, r, c) == EntrySum(ms, n, r, c) + x[r][c]
    decreases |ms|
  {
    assert AllSquare(ms + [x], n) by {
      forall i | 0 <= i < |ms + [x]| ensures IsSquare((ms + [x])[i], n) {
        if i < |ms| { assert (ms + [x])[i] == ms[i]; }
      }
    }
    if ms != [] {
      assert (ms + [x])[1..] == ms[1..] + [x];
      EntrySumSnoc(ms[1..], x, n, r, c);
    }
  }

  /** Every entry of Z is the sum of that entry over all elements of `soln`. */
  lemma {:induction false} SumIsEntrywise(ms: seq<Matrix>, n: nat, r: nat, c: nat)
    requires AllSquare(ms, n) && r < n && c < n
    ensures Sum(ms, n)[r][c] == EntrySum(ms, n, r, c)
    decreases |ms|
  {
    if ms != [] {
      var front := ms[..|ms| - 1];
      var last := ms[|ms| - 1];
      SumIsEntrywise(front, n, r, c);
      EntrySumSnoc(front, last, n, r, c);
      assert front + [last] == ms;
    }
  }

  /** Taking out element `i` removes exactly its entry from the entry sum. */
  lemma {:induction false} EntrySumRemove(ms: seq<Matrix>, i: nat, n: nat, r: nat, c: nat)
    requires AllSquare(ms, n) && i < |ms| && r < n && c < n
    ensures AllSquare(ms[..i] + ms[i + 1..], n)
    ensures EntrySum(ms, n, r, c) == ms[i][r][c] + EntrySum(ms[..i] + ms[i + 1..], n, r, c)
    decreases i
  {
    var rest := ms[..i] + ms[i + 1..];
    assert AllSquare(rest, n) by {
      forall t | 0 <= t < |rest| ensures IsSquare(rest[t], n) {
        if t < i { assert rest[t] == ms[t]; } else { assert rest[t] == ms[t + 1]; }
      }
    }
    if i == 0 {
      assert rest == ms[1..];
    } else {
      var tail := ms[1..];
      EntrySumRemove(tail, i - 1, n, r, c);
      assert rest == [ms[0]] + (tail[..i - 1] + tail[i..]);
      assert rest[1..] == tail[..i - 1] + tail[i..];
    }
  }

  /** The entry sums do not depend on the order of the summands. */
  lemma {:induction false} EntrySumPermutation(ms: seq<Matrix>, ns: seq<Matrix>, n: nat, r: nat, c: nat)
    requires AllSquare(ms, n) && AllSquare(ns, n) && r < n && c < n
    requires multiset(ms) == multiset(ns)
    ensures EntrySum(ms, n, r, c) == EntrySum(ns, n, r, c)
    decreases |ms|
  {
    if ms == [] {
      assert |ns| == |multiset(ns)| == 0;
    } else {
      assert ms[0] in multiset(ns);
      var i :| 0 <= i < |ns| && ns[i] == ms[0];
      EntrySumRemove(ns, i, n, r, c);
      var rest := ns[..i] + ns[i + 1..];
      assert ns == ns[..i] + [ns[i]] + ns[i + 1..];
      assert ms == [ms[0]] + ms[1..];
      assert multiset(ns) == multiset(ns[..i]) + multiset([ns[i]]) + multiset(ns[i + 1..]);
      assert multiset(rest) == multiset(ns[..i]) + multiset(ns[i + 1..]);
      assert multiset(ms) == multiset([ms[0]]) + multiset(ms[1..]);
      assert multiset(ms[1..]) == multiset(ms) - multiset([ms[0]]);
      assert multiset(rest) == multiset(ns) - multiset([ns[i]]);
      EntrySumPermutation(ms[1..], rest, n, r, c);
    }
  }

  /** The order in which the elements are added does not change Z. */
  lemma SumPermutation(ms: seq<Matrix>, ns: seq<Matrix>, n: nat)
    requires AllSquare(ms, n) && AllSquare(ns, n)
    requires multiset(ms) == multiset(ns)
    ensures Sum(ms, n) == Sum(ns, n)
  {
    forall r, c | 0 <= r < n && 0 <= c < n ensures Sum(ms, n)[r][c] == Sum(ns, n)[r][c] {
      SumIsEntrywise(ms, n, r, c);
      SumIsEntrywise(ns, n, r, c);
      EntrySumPermutation(ms, ns, n, r, c);
    }
    SameEntries(Sum(ms, n), Sum(ns, n), n);
  }

  /** Summing only zero matrices gives the zero matrix. */
  lemma {:induction false} SumOfZeros(ms: seq<Matrix>, n: nat)
    requires forall i :: 0 <= i < |ms| ==> ms[i] == Zero(n)
    ensures AllSquare(ms, n)
    ensures Sum(ms, n) == Zero(n)
    decreases |ms|
  {
    if ms != [] {
      SumOfZeros(ms[..|ms| - 1], n);
      SameEntries(Add(Zero(n), Zero(n)), Zero(n), n);
    }
  }
}
