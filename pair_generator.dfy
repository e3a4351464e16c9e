/**
 * The Hall-pair generator: scans candidate brackets [k, j] degree by degree
 * and appends those the order tables accept. Element 1 is X, element 2 is Y,
 * and the pair at position p (0-based) defines element p + 3.
 */
module PairGenerator {
  import opened Failures
  import opened OrderIndex

  /** A bracket [k, j]: the element it defines is the commutator of elements k and j. */
  datatype Pair = Pair(k: int, j: int)

  /** The pairs built so far, or the missing table key that stopped the scan. */
  type Scan = Result<seq<Pair>>

  /** The index the next accepted pair will define: `i` in the loops. */
  function Cursor(acc: Scan): int {
    if acc.Ok? then 3 + |acc.value| else 0
  }

  /**
   * One test of the innermost loop: look up the orders of `j` and `k` and,
   * when they add up to `n` (and, for `j == 1`, when `k` opens an order),
   * append [k, j]. A lookup of a missing key stops the scan.
   */
  function Consider(isFirst: map<int, bool>, lenOf: map<int, int>, n: int, j: int, k: int,
                    pairs: seq<Pair>): (r: Scan)
    ensures r.Ok? ==> r.value == pairs || r.value == pairs + [Pair(k, j)]
    ensures r.Ok? && r.value != pairs ==> Accepted(isFirst, lenOf, n, Pair(k, j))
    ensures Accepted(isFirst, lenOf, n, Pair(k, j)) ==> r == Ok(pairs + [Pair(k, j)])
  {
    if j !in lenOf then Err(KeyError(j))
    else if k !in lenOf then Err(KeyError(k))
    else if lenOf[j] + lenOf[k] != n then Ok(pairs)
    else if j == 1 then
      if k !in isFirst then Err(KeyError(k))
      else if isFirst[k] then Ok(pairs + [Pair(k, j)])
      else Ok(pairs)
    else Ok(pairs + [Pair(k, j)])
  }

  /** The acceptance rule: the orders add up to `n`, and a bracket with element 1 needs an order start. */
  ghost predicate Accepted(isFirst: map<int, bool>, lenOf: map<int, int>, n: int, pr: Pair) {
    && pr.j in lenOf && pr.k in lenOf
    && lenOf[pr.j] + lenOf[pr.k] == n
    && (pr.j == 1 ==> pr.k in isFirst && isFirst[pr.k])
  }

  /** The innermost loop: `k` runs from `k` up to the bound `kEnd` fixed when it started. */
  function ScanK(isFirst: map<int, bool>, lenOf: map<int, int>, n: int, j: int, k: int, kEnd: int,
                 acc: Scan): Scan
    decreases kEnd - k
  {
    if k >= kEnd || acc.Err? then acc
    else ScanK(isFirst, lenOf, n, j, k + 1, kEnd, Consider(isFirst, lenOf, n, j, k, acc.value))
  }

  /** The middle loop: `j` runs up to the bound `jEnd` fixed when it started; each `k` range ends at the current cursor. */
  function ScanJ(isFirst: map<int, bool>, lenOf: map<int, int>, n: int, j: int, jEnd: int,
                 acc: Scan): Scan
    decreases jEnd - j
  {
    if j >= jEnd || acc.Err? then acc
    else ScanJ(isFirst, lenOf, n, j + 1, jEnd, ScanK(isFirst, lenOf, n, j, j + 1, Cursor(acc), acc))
  }

  /** The outer loop: degrees `n` up to `order`; each `j` range ends one below the current cursor. */
  function ScanN(isFirst: map<int, bool>, lenOf: map<int, int>, n: int, order: int, acc: Scan): Scan
    decreases order + 1 - n
  {
    if n > order || acc.Err? then acc
    else ScanN(isFirst, lenOf, n + 1, order, ScanJ(isFirst, lenOf, n, 1, Cursor(acc) - 1, acc))
  }

  /** All pairs up to degree `order`, starting from the two generators. */
  function Generate(isFirst: map<int, bool>, lenOf: map<int, int>, order: int): Scan {
    ScanN(isFirst, lenOf, 2, order, Ok([]))
  }

  /** The triple loop with its cursor `i`; loop bounds are captured when each loop starts. */
  method GeneratePairs(isFirst: map<int, bool>, lenOf: map<int, int>, order: int) returns (r: Scan)
    ensures r == Generate(isFirst, lenOf, order)
    ensures r.Ok? ==> Refers(r.value) && Graded(isFirst, lenOf, order, r.value)
  {
    ghost var want := Generate(isFirst, lenOf, order);
    var pairs: seq<Pair> := [];
    var i := 3;
    var n := 2;
    while n <= order
      invariant i == 3 + |pairs|
      invariant ScanN(isFirst, lenOf, n, order, Ok(pairs)) == want
      decreases order + 1 - n
    {
      var jEnd := i - 1;
      for j := 1 to jEnd
        invariant i == 3 + |pairs| && jEnd < i
        invariant ScanN(isFirst, lenOf, n + 1, order, ScanJ(isFirst, lenOf, n, j, jEnd, Ok(pairs))) == want
      {
        var kEnd := i;
        for k := j + 1 to kEnd
          invariant i == 3 + |pairs| && jEnd < i && kEnd <= i
          invariant ScanN(isFirst, lenOf, n + 1, order,
                      ScanJ(isFirst, lenOf, n, j + 1, jEnd,
                        ScanK(isFirst, lenOf, n, j, k, kEnd, Ok(pairs)))) == want
        {
          if j !in lenOf {
            return Err(KeyError(j));
          }
          if k !in lenOf {
            return Err(KeyError(k));
          }
          if lenOf[j] + lenOf[k] == n {
            if j == 1 {
              if k !in isFirst {
                return Err(KeyError(k));
              }
              if isFirst[k] {
                pairs := pairs + [Pair(k, j)];
                i := i + 1;
              }
            } else {
              pairs := pairs + [Pair(k, j)];
              i := i + 1;
            }
          }
        }
      }
      n := n + 1;
    }
    r := Ok(pairs);
    GenerateWellFormed(isFirst, lenOf, order);
  }

  /** Every pair brackets two elements defined before the one it defines. */
  predicate Refers(ps: seq<Pair>) {
    forall p :: 0 <= p < |ps| ==> 1 <= ps[p].j < ps[p].k <= p + 2
  }

  /** The degree of a pair: the sum of its operands' orders. */
  function PairDegree(lenOf: map<int, int>, pr: Pair): int {
    if pr.j in lenOf && pr.k in lenOf then lenOf[pr.j] + lenOf[pr.k] else 0
  }

  /**
   * Every pair was accepted at some degree 2..`top`, and degrees never
   * decrease along the sequence.
   */
  ghost predicate Graded(isFirst: map<int, bool>, lenOf: map<int, int>, top: int, ps: seq<Pair>) {
    && (forall p :: 0 <= p < |ps| ==>
          2 <= PairDegree(lenOf, ps[p]) <= top && Accepted(isFirst, lenOf, PairDegree(lenOf, ps[p]), ps[p]))
    && (forall p, q :: 0 <= p < q < |ps| ==> PairDegree(lenOf, ps[p]) <= PairDegree(lenOf, ps[q]))
  }

  /**
   * Whatever tables it is given, a scan that finishes yields pairs that refer
   * only to earlier elements and that were accepted in non-decreasing degree;
   * below degree 2 it yields no pairs at all.
   */
  lemma GenerateWellFormed(isFirst: map<int, bool>, lenOf: map<int, int>, order: int)
    ensures order <= 1 ==> Generate(isFirst, lenOf, order) == Ok([])
    ensures var r := Generate(isFirst, lenOf, order);
      r.Ok? ==> Refers(r.value) && Graded(isFirst, lenOf, order, r.value)
  {
    if order >= 2 {
      ScanNKeeps(isFirst, lenOf, 2, order, []);
    }
  }

  lemma {:induction false} ScanKKeeps(isFirst: map<int, bool>, lenOf: map<int, int>, n: int,
                                      j: int, k: int, kEnd: int, ps: seq<Pair>)
    requires 2 <= n && 1 <= j < k && kEnd <= 3 + |ps|
    requires Refers(ps) && Graded(isFirst, lenOf, n, ps)
    ensures var r := ScanK(isFirst, lenOf, n, j, k, kEnd, Ok(ps));
      r.Ok? ==> Refers(r.value) && Graded(isFirst, lenOf, n, r.value)
    decreases kEnd - k
  {
    if k < kEnd {
      var c := Consider(isFirst, lenOf, n, j, k, ps);
      if c.Ok? {
        if c.value != ps {
          var pr := Pair(k, j);
          assert c.value == ps + [pr] && Accepted(isFirst, lenOf, n, pr);
          assert PairDegree(lenOf, pr) == n;
          assert Refers(c.value) by {
            forall p | 0 <= p < |c.value| ensures 1 <= c.value[p].j < c.value[p].k <= p + 2 {
              if p < |ps| {
                assert c.value[p] == ps[p];
              }
            }
          }
          assert Graded(isFirst, lenOf, n, c.value) by {
            forall p | 0 <= p < |c.value|
              ensures 2 <= PairDegree(lenOf, c.value[p]) <= n
              ensures Accepted(isFirst, lenOf, PairDegree(lenOf, c.value[p]), c.value[p])
            {
              if p < |ps| {
                assert c.value[p] == ps[p];
              }
            }
            forall p, q | 0 <= p < q < |c.value|
              ensures PairDegree(lenOf, c.value[p]) <= PairDegree(lenOf, c.value[q])
            {
              assert c.value[p] == ps[p];
              if q < |ps| {
                assert c.value[q] == ps[q];
              }
            }
          }
        }
        ScanKKeeps(isFirst, lenOf, n, j, k + 1, kEnd, c.value);
      }
    }
  }

  lemma {:induction false} ScanJKeeps(isFirst: map<int, bool>, lenOf: map<int, int>, n: int,
                                      j: int, jEnd: int, ps: seq<Pair>)
    requires 2 <= n && 1 <= j
    requires Refers(ps) && Graded(isFirst, lenOf, n, ps)
    ensures var r := ScanJ(isFirst, lenOf, n, j, jEnd, Ok(ps));
      r.Ok? ==> Refers(r.value) && Graded(isFirst, lenOf, n, r.value)
    decreases jEnd - j
  {
    if j < jEnd {
      var mid := ScanK(isFirst, lenOf, n, j, j + 1, 3 + |ps|, Ok(ps));
      ScanKKeeps(isFirst, lenOf, n, j, j + 1, 3 + |ps|, ps);
      if mid.Ok? {
        ScanJKeeps(isFirst, lenOf, n, j + 1, jEnd, mid.value);
      }
    }
  }

  lemma {:induction false} ScanNKeeps(isFirst: map<int, bool>, lenOf: map<int, int>, n: int,
                                      order: int, ps: seq<Pair>)
    requires 2 <= n <= order + 1
    requires Refers(ps) && Graded(isFirst, lenOf, n - 1, ps)
    ensures var r := ScanN(isFirst, lenOf, n, order, Ok(ps));
      r.Ok? ==> Refers(r.value) && Graded(isFirst, lenOf, order, r.value)
    decreases order + 1 - n
  {
    if n <= order {
      var mid := ScanJ(isFirst, lenOf, n, 1, 2 + |ps|, Ok(ps));
      ScanJKeeps(isFirst, lenOf, n, 1, 2 + |ps|, ps);
      if mid.Ok? {
        ScanNKeeps(isFirst, lenOf, n + 1, order, mid.value);
      }
    }
  }

  /** The twelve pairs of degrees 2 to 5 that the tables of `init_dict` select. */
  const OrderFivePairs: seq<Pair> := [
    Pair(2, 1),
    Pair(3, 1), Pair(3, 2),
    Pair(4, 1), Pair(4, 2), Pair(5, 2),
    Pair(6, 1), Pair(6, 2), Pair(7, 2), Pair(8, 2), Pair(4, 3), Pair(5, 3)]

  /** What the order tables say about indices 1..14, the part that degrees up to 5 read. */
  ghost predicate LowTables(t: map<int, bool>, l: map<int, int>) {
    && (forall x :: 1 <= x <= 14 ==> x in l)
    && (forall x :: 2 <= x <= 14 ==> x in t)
    && l[1] == 1 && l[2] == 1 && l[3] == 2 && l[4] == 3 && l[5] == 3
    && (forall x :: 6 <= x <= 8 ==> l[x] == 4)
    && (forall x :: 9 <= x <= 14 ==> l[x] == 5)
    && (forall x :: 2 <= x <= 14 ==> (t[x] <==> x == 2 || x == 3 || x == 4 || x == 6 || x == 9))
  }

  /** The tables of `init_dict` have these values at indices 1..14. */
  lemma SmallTable()
    ensures LowTables(OrderTable(), LenTable())
  {
    SmallOrderTable();
    SmallLenTable();
  }

  lemma SmallOrderTable()
    ensures forall x :: 2 <= x <= 14 ==> x in OrderTable()
    ensures forall x :: 2 <= x <= 14 ==> (OrderTable()[x] <==> x == 2 || x == 3 || x == 4 || x == 6 || x == 9)
  {
  }

  lemma SmallLenTable()
    ensures forall x :: 1 <= x <= 14 ==> x in LenTable()
    ensures LenTable()[1] == 1 && LenTable()[2] == 1 && LenTable()[3] == 2
    ensures LenTable()[4] == 3 && LenTable()[5] == 3
    ensures forall x :: 6 <= x <= 8 ==> LenTable()[x] == 4
    ensures forall x :: 9 <= x <= 14 ==> LenTable()[x] == 5
  {
    DegreeWithin(2, 1);
    DegreeWithin(3, 2);
    DegreeWithin(4, 3);
    DegreeWithin(5, 3);
    forall x | 6 <= x <= 8 ensures LenTable()[x] == 4 {
      DegreeWithin(x, 4);
    }
    forall x | 9 <= x <= 14 ensures LenTable()[x] == 5 {
      DegreeWithin(x, 5);
    }
  }

  /** A stretch of candidates that are all looked up and all rejected leaves the scan unchanged. */
  lemma {:induction false} ScanKSkip(isFirst: map<int, bool>, lenOf: map<int, int>, n: int, j: int,
                                     a: int, b: int, kEnd: int, ps: seq<Pair>)
    requires a <= b <= kEnd
    requires forall k :: a <= k < b ==> Consider(isFirst, lenOf, n, j, k, ps) == Ok(ps)
    ensures ScanK(isFirst, lenOf, n, j, a, kEnd, Ok(ps)) == ScanK(isFirst, lenOf, n, j, b, kEnd, Ok(ps))
    decreases b - a
  {
    if a < b {
      ScanKSkip(isFirst, lenOf, n, j, a + 1, b, kEnd, ps);
    }
  }

  /** An accepted candidate extends the prefix of `OrderFivePairs` by the next pair. */
  lemma Accept(t: map<int, bool>, l: map<int, int>, n: int, j: int, k: int, kEnd: int, m: nat)
    requires m < |OrderFivePairs| && OrderFivePairs[m] == Pair(k, j) && k < kEnd
    requires Accepted(t, l, n, Pair(k, j))
    ensures ScanK(t, l, n, j, k, kEnd, Ok(OrderFivePairs[..m]))
         == ScanK(t, l, n, j, k + 1, kEnd, Ok(OrderFivePairs[..m + 1]))
  {
    assert OrderFivePairs[..m] + [Pair(k, j)] == OrderFivePairs[..m + 1];
  }

  /** Degree 2: from 0 pairs (cursor 3) to 1 pairs (cursor 4). */
  lemma DegreeTwo(t: map<int, bool>, l: map<int, int>)
    requires LowTables(t, l)
    ensures ScanJ(t, l, 2, 1, 2, Ok(OrderFivePairs[..0])) == Ok(OrderFivePairs[..1])
  {
    var P := OrderFivePairs;
    Accept(t, l, 2, 1, 2, 3, 0);
    assert ScanJ(t, l, 2, 1, 2, Ok(P[..0])) == ScanJ(t, l, 2, 2, 2, Ok(P[..1]));
  }

  /** Degree 3: from 1 pairs (cursor 4) to 3 pairs (cursor 6). */
  lemma DegreeThree(t: map<int, bool>, l: map<int, int>)
    requires LowTables(t, l)
    ensures ScanJ(t, l, 3, 1, 3, Ok(OrderFivePairs[..1])) == Ok(OrderFivePairs[..3])
  {
    var P := OrderFivePairs;
    ScanKSkip(t, l, 3, 1, 2, 3, 4, P[..1]);
    Accept(t, l, 3, 1, 3, 4, 1);
    assert ScanJ(t, l, 3, 1, 3, Ok(P[..1])) == ScanJ(t, l, 3, 2, 3, Ok(P[..2]));
    Accept(t, l, 3, 2, 3, 5, 2);
    ScanKSkip(t, l, 3, 2, 4, 5, 5, P[..3]);
    assert ScanJ(t, l, 3, 2, 3, Ok(P[..2])) == ScanJ(t, l, 3, 3, 3, Ok(P[..3]));
  }

  /** Degree 4: from 3 pairs (cursor 6) to 6 pairs (cursor 9). */
  lemma DegreeFour(t: map<int, bool>, l: map<int, int>)
    requires LowTables(t, l)
    ensures ScanJ(t, l, 4, 1, 5, Ok(OrderFivePairs[..3])) == Ok(OrderFivePairs[..6])
  {
    DegreeFourOpen(t, l);
    DegreeFourClose(t, l);
  }

  /** Degree 4, left operands 1 and 2: pairs [4, 1], [4, 2] and [5, 2]. */
  lemma DegreeFourOpen(t: map<int, bool>, l: map<int, int>)
    requires LowTables(t, l)
    ensures ScanJ(t, l, 4, 1, 5, Ok(OrderFivePairs[..3]))
         == ScanJ(t, l, 4, 3, 5, Ok(OrderFivePairs[..6]))
  {
    var P := OrderFivePairs;
    ScanKSkip(t, l, 4, 1, 2, 4, 6, P[..3]);
    Accept(t, l, 4, 1, 4, 6, 3);
    ScanKSkip(t, l, 4, 1, 5, 6, 6, P[..4]);
    assert ScanJ(t, l, 4, 1, 5, Ok(P[..3])) == ScanJ(t, l, 4, 2, 5, Ok(P[..4]));
    ScanKSkip(t, l, 4, 2, 3, 4, 7, P[..4]);
    Accept(t, l, 4, 2, 4, 7, 4);
    Accept(t, l, 4, 2, 5, 7, 5);
    ScanKSkip(t, l, 4, 2, 6, 7, 7, P[..6]);
  }

  /** Degree 4, left operands 3 and 4: nothing more is accepted. */
  lemma DegreeFourClose(t: map<int, bool>, l: map<int, int>)
    requires LowTables(t, l)
    ensures ScanJ(t, l, 4, 3, 5, Ok(OrderFivePairs[..6])) == Ok(OrderFivePairs[..6])
  {
    var P := OrderFivePairs;
    ScanKSkip(t, l, 4, 3, 4, 9, 9, P[..6]);
    assert ScanJ(t, l, 4, 3, 5, Ok(P[..6])) == ScanJ(t, l, 4, 4, 5, Ok(P[..6]));
    ScanKSkip(t, l, 4, 4, 5, 9, 9, P[..6]);
  }

  /** Degree 5: from 6 pairs (cursor 9) to 12 pairs (cursor 15). */
  lemma DegreeFive(t: map<int, bool>, l: map<int, int>)
    requires LowTables(t, l)
    ensures ScanJ(t, l, 5, 1, 8, Ok(OrderFivePairs[..6])) == Ok(OrderFivePairs[..12])
  {
    DegreeFiveWithX(t, l);
    DegreeFiveWithY(t, l);
    DegreeFiveWithThree(t, l);
    DegreeFiveClose(t, l);
  }

  /** Degree 5, left operand 1: the pair [6, 1]. */
  lemma DegreeFiveWithX(t: map<int, bool>, l: map<int, int>)
    requires LowTables(t, l)
    ensures ScanJ(t, l, 5, 1, 8, Ok(OrderFivePairs[..6]))
         == ScanJ(t, l, 5, 2, 8, Ok(OrderFivePairs[..7]))
  {
    var P := OrderFivePairs;
    ScanKSkip(t, l, 5, 1, 2, 6, 9, P[..6]);
    Accept(t, l, 5, 1, 6, 9, 6);
    ScanKSkip(t, l, 5, 1, 7, 9, 9, P[..7]);
  }

  /** Degree 5, left operand 2: the pairs [6, 2], [7, 2] and [8, 2]. */
  lemma DegreeFiveWithY(t: map<int, bool>, l: map<int, int>)
    requires LowTables(t, l)
    ensures ScanJ(t, l, 5, 2, 8, Ok(OrderFivePairs[..7]))
         == ScanJ(t, l, 5, 3, 8, Ok(OrderFivePairs[..10]))
  {
    var P := OrderFivePairs;
    ScanKSkip(t, l, 5, 2, 3, 6, 10, P[..7]);
    Accept(t, l, 5, 2, 6, 10, 7);
    Accept(t, l, 5, 2, 7, 10, 8);
    Accept(t, l, 5, 2, 8, 10, 9);
    ScanKSkip(t, l, 5, 2, 9, 10, 10, P[..10]);
  }

  /** Degree 5, left operand 3: the pairs [4, 3] and [5, 3]. */
  lemma DegreeFiveWithThree(t: map<int, bool>, l: map<int, int>)
    requires LowTables(t, l)
    ensures ScanJ(t, l, 5, 3, 8, Ok(OrderFivePairs[..10]))
         == ScanJ(t, l, 5, 4, 8, Ok(OrderFivePairs[..12]))
  {
    var P := OrderFivePairs;
    Accept(t, l, 5, 3, 4, 13, 10);
    Accept(t, l, 5, 3, 5, 13, 11);
    ScanKSkip(t, l, 5, 3, 6, 13, 13, P[..12]);
  }

  /** Degree 5, left operands 4 to 7: nothing more is accepted. */
  lemma DegreeFiveClose(t: map<int, bool>, l: map<int, int>)
    requires LowTables(t, l)
    ensures ScanJ(t, l, 5, 4, 8, Ok(OrderFivePairs[..12])) == Ok(OrderFivePairs[..12])
  {
    var P := OrderFivePairs;
    ScanKSkip(t, l, 5, 4, 5, 15, 15, P[..12]);
    assert ScanJ(t, l, 5, 4, 8, Ok(P[..12])) == ScanJ(t, l, 5, 5, 8, Ok(P[..12]));
    ScanKSkip(t, l, 5, 5, 6, 15, 15, P[..12]);
    assert ScanJ(t, l, 5, 5, 8, Ok(P[..12])) == ScanJ(t, l, 5, 6, 8, Ok(P[..12]));
    ScanKSkip(t, l, 5, 6, 7, 15, 15, P[..12]);
    assert ScanJ(t, l, 5, 6, 8, Ok(P[..12])) == ScanJ(t, l, 5, 7, 8, Ok(P[..12]));
    ScanKSkip(t, l, 5, 7, 8, 15, 15, P[..12]);
  }

  /**
   * With the tables of `init_dict`, degrees 2 to 5 yield exactly the twelve
   * `OrderFivePairs`, no lookup leaves the table, and after each degree n the
   * cursor stands at the next order start, FirstOfOrder[n].
   */
  lemma GenerateOrderFive()
    ensures Generate(OrderTable(), LenTable(), 2) == Ok(OrderFivePairs[..1])
    ensures Generate(OrderTable(), LenTable(), 3) == Ok(OrderFivePairs[..3])
    ensures Generate(OrderTable(), LenTable(), 4) == Ok(OrderFivePairs[..6])
    ensures Generate(OrderTable(), LenTable(), 5) == Ok(OrderFivePairs)
    ensures forall n :: 2 <= n <= 5 ==> Cursor(Generate(OrderTable(), LenTable(), n)) == FirstOfOrder[n]
  {
    SmallTable();
    DegreesUpToFive(OrderTable(), LenTable());
  }

  /** Degrees 2 to 5 over any tables that agree with those of `init_dict` on indices 1..14. */
  lemma DegreesUpToFive(t: map<int, bool>, l: map<int, int>)
    requires LowTables(t, l)
    ensures Generate(t, l, 2) == Ok(OrderFivePairs[..1])
    ensures Generate(t, l, 3) == Ok(OrderFivePairs[..3])
    ensures Generate(t, l, 4) == Ok(OrderFivePairs[..6])
    ensures Generate(t, l, 5) == Ok(OrderFivePairs)
    ensures forall n :: 2 <= n <= 5 ==> Cursor(Generate(t, l, n)) == FirstOfOrder[n]
  {
    DegreesFromTwo(t, l, 2);
    DegreesFromTwo(t, l, 3);
    DegreesFromTwo(t, l, 4);
    DegreesFromTwo(t, l, 5);
    assert OrderFivePairs[..12] == OrderFivePairs;
  }

  /** Running degrees 2 up to `order` (at most 5) from the empty list. */
  lemma DegreesFromTwo(t: map<int, bool>, l: map<int, int>, order: int)
    requires LowTables(t, l) && 2 <= order <= 5
    ensures Generate(t, l, order) == Ok(OrderFivePairs[..FirstOfOrder[order] - 3])
  {
    var P := OrderFivePairs;
    DegreeTwo(t, l);
    assert P[..0] == [];
    assert Generate(t, l, order) == ScanN(t, l, 3, order, Ok(P[..1]));
    if order >= 3 {
      DegreeThree(t, l);
      assert ScanN(t, l, 3, order, Ok(P[..1])) == ScanN(t, l, 4, order, Ok(P[..3]));
      if order >= 4 {
        DegreeFour(t, l);
        assert ScanN(t, l, 4, order, Ok(P[..3])) == ScanN(t, l, 5, order, Ok(P[..6]));
        if order == 5 {
          DegreeFive(t, l);
          assert ScanN(t, l, 5, order, Ok(P[..6])) == ScanN(t, l, 6, order, Ok(P[..12]));
        }
      }
    }
  }
}
