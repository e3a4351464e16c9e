/**
 * The order table of `init_dict`: for every basis-element index up to 179,
 * whether it opens a new order, and the order (bracket degree) it belongs to.
 */
module OrderIndex {

  /** The indices at which a new order starts. */
  const FirstOfOrder: seq<int> := [2, 3, 4, 6, 9, 15, 24, 42, 72, 128]

  /** One past the last index of the table (`xrange(2, 180)`). */
  const TableEnd: int := 180

  predicate StrictlyIncreasing(fs: seq<int>) {
    forall a, b :: 0 <= a < b < |fs| ==> fs[a] < fs[b]
  }

  /** The number of entries of `fs` that are at most `i`. */
  function CountUpTo(fs: seq<int>, i: int): (c: nat)
    ensures c <= |fs|
  {
    if fs == [] then 0 else (if fs[0] <= i then 1 else 0) + CountUpTo(fs[1..], i)
  }

  /** Whether index `i` opens a new order. */
  predicate StartsOrder(i: int) {
    i in FirstOfOrder
  }

  /** The number of order starts up to `i`. */
  function Counted(i: int): nat {
    CountUpTo(FirstOfOrder, i)
  }

  /** The order of index `i`: 1 for index 1, otherwise the number of order starts up to `i`. */
  function Degree(i: int): int {
    if i == 1 then 1 else Counted(i)
  }

  /** `order_dict` as `init_dict` returns it. */
  function OrderTable(): map<int, bool> {
    map i | 2 <= i < TableEnd :: StartsOrder(i)
  }

  /** `len_dict` as `init_dict` returns it. */
  function LenTable(): map<int, int> {
    map i | 1 <= i < TableEnd :: Degree(i)
  }

  /** Builds both tables with the running order counter `j`. */
  method InitDict() returns (orderDict: map<int, bool>, lenDict: map<int, int>)
    ensures orderDict == OrderTable()
    ensures lenDict == LenTable()
  {
    orderDict := map[];
    SpansEmpty(orderDict, 2);
    lenDict := map[];
    SpansEmpty(lenDict, 1);
    SpansExtend(lenDict, 1, 1, 1);
    lenDict := lenDict[1 := 1];
    var j := 0;
    DegreeStep(1);
    for i := 2 to TableEnd
      invariant j == Counted(i - 1)
      invariant Spans(orderDict, 2, i) && Spans(lenDict, 1, i)
      invariant forall x :: x in orderDict ==> orderDict[x] == StartsOrder(x)
      invariant forall x :: x in lenDict ==> lenDict[x] == Degree(x)
    {
      DegreeStep(i);
      SpansExtend(orderDict, 2, i, StartsOrder(i));
      SpansExtend(lenDict, 1, i, Degree(i));
      if StartsOrder(i) {
        orderDict := orderDict[i := true];
        j := j + 1;
      } else {
        orderDict := orderDict[i := false];
      }
      lenDict := lenDict[i := j];
    }
    IsOrderTable(orderDict);
    IsLenTable(lenDict);
  }

  /** A map over keys 2..179 holding the order-start flag of each key is `OrderTable()`. */
  lemma IsOrderTable(m: map<int, bool>)
    requires Spans(m, 2, TableEnd)
    requires forall x :: x in m ==> m[x] == StartsOrder(x)
    ensures m == OrderTable()
  {
  }

  /** A map over keys 1..179 holding the order of each key is `LenTable()`. */
  lemma IsLenTable(m: map<int, int>)
    requires Spans(m, 1, TableEnd)
    requires forall x :: x in m ==> m[x] == Degree(x)
    ensures m == LenTable()
  {
  }

  /** The keys of `m` are exactly lo..hi-1. */
  ghost predicate Spans<V>(m: map<int, V>, lo: int, hi: int) {
    forall x :: x in m <==> lo <= x < hi
  }

  lemma SpansEmpty<V>(m: map<int, V>, lo: int)
    requires m == map[]
    ensures Spans(m, lo, lo)
  {
  }

  /** Adding the key `hi` extends the range by one. */
  lemma SpansExtend<V>(m: map<int, V>, lo: int, hi: int, v: V)
    requires Spans(m, lo, hi) && lo <= hi
    ensures hi !in m && Spans(m[hi := v], lo, hi + 1)
  {
  }

  /** The running counter of `init_dict` advances exactly at the order starts. */
  lemma DegreeStep(i: int)
    ensures Counted(i) == Counted(i - 1) + (if StartsOrder(i) then 1 else 0)
    ensures i <= 1 ==> Counted(i) == 0
  {
    FirstOfOrderIncreasing();
    CountStep(FirstOfOrder, i);
    if i <= 1 {
      CountBelowAll(FirstOfOrder, i);
    }
  }

  lemma FirstOfOrderIncreasing()
    ensures StrictlyIncreasing(FirstOfOrder)
  {
  }

  /** No entry of an increasing sequence starting above `i` is counted. */
  lemma {:induction false} CountBelowAll(fs: seq<int>, i: int)
    requires StrictlyIncreasing(fs)
    requires fs != [] ==> i < fs[0]
    ensures CountUpTo(fs, i) == 0
  {
    if fs != [] {
      if |fs| > 1 { assert fs[0] < fs[1]; }
      CountBelowAll(fs[1..], i);
    }
  }

  /** Once every entry is at most `i`, all of them are counted. */
  lemma {:induction false} CountAboveAll(fs: seq<int>, i: int)
    requires forall a :: 0 <= a < |fs| ==> fs[a] <= i
    ensures CountUpTo(fs, i) == |fs|
  {
    if fs != [] {
      CountAboveAll(fs[1..], i);
    }
  }

  /** Moving from `i - 1` to `i` adds one exactly when `i` is an entry. */
  lemma {:induction false} CountStep(fs: seq<int>, i: int)
    requires StrictlyIncreasing(fs)
    ensures CountUpTo(fs, i) == CountUpTo(fs, i - 1) + (if i in fs then 1 else 0)
  {
    if fs != [] {
      assert fs == [fs[0]] + fs[1..];
      CountStep(fs[1..], i);
      if i == fs[0] {
        MemberAbove(fs[1..], i);
      }
    }
  }

  /** An increasing sequence whose entries all exceed `x` does not contain it. */
  lemma {:induction false} MemberAbove(fs: seq<int>, x: int)
    requires StrictlyIncreasing(fs)
    requires fs != [] ==> x < fs[0]
    ensures x !in fs
  {
    if |fs| > 1 {
      assert fs[0] < fs[1];
      MemberAbove(fs[1..], x);
    }
  }

  /** The count never decreases as `i` grows. */
  lemma {:induction false} CountMonotone(fs: seq<int>, a: int, b: int)
    requires a <= b
    ensures CountUpTo(fs, a) <= CountUpTo(fs, b)
  {
    if fs != [] {
      CountMonotone(fs[1..], a, b);
    }
  }

  /** The order of an index never decreases along the table. */
  lemma DegreeMonotone(a: int, b: int)
    requires 1 <= a <= b
    ensures Degree(a) <= Degree(b)
  {
    if a == 1 {
      if b != 1 {
        assert FirstOfOrder[0] == 2;
      }
    } else {
      CountMonotone(FirstOfOrder, a, b);
    }
  }

  /** Every order in the table lies in 1..10, and exactly the indices from 128 on have order 10. */
  lemma DegreeRange(i: int)
    requires 1 <= i < TableEnd
    ensures 1 <= Degree(i) <= |FirstOfOrder| == 10
    ensures Degree(i) == 10 <==> 128 <= i
  {
    DegreeMonotone(i, TableEnd - 1);
    if 128 <= i {
      CountAboveAll(FirstOfOrder, i);
    } else {
      DegreeMonotone(i, 127);
      DegreeWithin(127, 9);
    }
  }

  /**
   * From index 3 on, an index opens a new order exactly when its order differs
   * from its predecessor's; index 2 is flagged although its order equals index 1's.
   */
  lemma FirstMarksStep(i: int)
    requires 2 <= i < TableEnd
    ensures i == 2 ==> StartsOrder(i) && Degree(i) == Degree(i - 1)
    ensures i >= 3 ==> (StartsOrder(i) <==> Degree(i) != Degree(i - 1))
  {
    DegreeStep(i);
    if i == 2 {
      DegreeStep(1);
    }
  }

  /** The keys of both tables and the relation of each flag to the orders. */
  lemma TablesAgree(i: int)
    ensures i in LenTable() <==> 1 <= i <= 179
    ensures i in OrderTable() <==> 2 <= i <= 179
    ensures LenTable()[1] == 1
    ensures i in OrderTable() ==> (OrderTable()[i] <==> StartsOrder(i))
    ensures 3 <= i <= 179 ==> (OrderTable()[i] <==> LenTable()[i] != LenTable()[i - 1])
  {
    if 3 <= i <= 179 {
      FirstMarksStep(i);
    }
  }

  /** In an increasing sequence, `i` between the entries at `m - 1` and `m` has exactly `m` entries at or below it. */
  lemma {:induction false} CountBetween(fs: seq<int>, m: nat, i: int)
    requires StrictlyIncreasing(fs)
    requires 0 < m <= |fs| && fs[m - 1] <= i
    requires m < |fs| ==> i < fs[m]
    ensures CountUpTo(fs, i) == m
  {
    assert fs[0] <= fs[m - 1];
    if m == 1 {
      if |fs| > 1 {
        assert fs[1..][0] == fs[1];
      }
      CountBelowAll(fs[1..], i);
    } else {
      CountBetween(fs[1..], m - 1, i);
    }
  }

  /** An index has order `n` exactly when it lies from the `n`-th order start up to, not including, the next one. */
  lemma DegreeWithin(i: int, n: int)
    requires 1 <= n < |FirstOfOrder|
    requires FirstOfOrder[n - 1] <= i < FirstOfOrder[n]
    ensures Degree(i) == n
  {
    FirstOfOrderIncreasing();
    CountBetween(FirstOfOrder, n, i);
  }
}
