/** The value of a change reserve (src/utils/getTotalChangeAmount.ts). */
module TotalChange {
  import opened Types

  /** The reserve's total value: each count times its face value, summed. */
  function GetTotalChangeAmount(reserve: ChangeReserve): int {
    reserve.n10 * 10 +
    reserve.n50 * 50 +
    reserve.n100 * 100 +
    reserve.n500 * 500 +
    reserve.n1000 * 1000 +
    reserve.n5000 * 5000 +
    reserve.n10000 * 10000 +
    reserve.n50000 * 50000
  }

  /** Reference definition: the weighted sum over a list of denominations. */
  function WeightedSum(reserve: ChangeReserve, ds: seq<Denomination>): int {
    if ds == [] then 0 else ds[0] * reserve.Count(ds[0]) + WeightedSum(reserve, ds[1..])
  }

  /** The count-wise sum of two reserves. */
  function Add(a: ChangeReserve, b: ChangeReserve): (r: ChangeReserve)
    ensures forall d: Denomination :: r.Count(d) == a.Count(d) + b.Count(d)
  {
    ChangeReserve(a.n10 + b.n10, a.n50 + b.n50, a.n100 + b.n100, a.n500 + b.n500,
                  a.n1000 + b.n1000, a.n5000 + b.n5000, a.n10000 + b.n10000, a.n50000 + b.n50000)
  }

  /** The total is the weighted sum over the eight denominations. */
  lemma {:induction false} TotalIsWeightedSum(reserve: ChangeReserve)
    ensures GetTotalChangeAmount(reserve) == WeightedSum(reserve, Denominations)
  {
    var ds := Denominations;
    assert ds[1..] == [10000, 5000, 1000, 500, 100, 50, 10];
    assert ds[2..] == [5000, 1000, 500, 100, 50, 10];
    assert ds[3..] == [1000, 500, 100, 50, 10];
    assert ds[4..] == [500, 100, 50, 10];
    assert ds[5..] == [100, 50, 10];
    assert ds[6..] == [50, 10];
    assert ds[7..] == [10];
    assert WeightedSum(reserve, ds[7..]) == 10 * reserve.n10 + WeightedSum(reserve, ds[8..]);
    assert WeightedSum(reserve, ds[6..]) == 50 * reserve.n50 + WeightedSum(reserve, ds[7..]);
    assert WeightedSum(reserve, ds[5..]) == 100 * reserve.n100 + WeightedSum(reserve, ds[6..]);
    assert WeightedSum(reserve, ds[4..]) == 500 * reserve.n500 + WeightedSum(reserve, ds[5..]);
    assert WeightedSum(reserve, ds[3..]) == 1000 * reserve.n1000 + WeightedSum(reserve, ds[4..]);
    assert WeightedSum(reserve, ds[2..]) == 5000 * reserve.n5000 + WeightedSum(reserve, ds[3..]);
    assert WeightedSum(reserve, ds[1..]) == 10000 * reserve.n10000 + WeightedSum(reserve, ds[2..]);
  }

  /** An empty reserve is worth nothing. */
  lemma TotalOfEmpty()
    ensures GetTotalChangeAmount(EmptyReserve) == 0
  {
  }

  /** A reserve without negative counts has a non-negative value. */
  lemma TotalNonNegative(reserve: ChangeReserve)
    requires AllNonNegative(reserve)
    ensures GetTotalChangeAmount(reserve) >= 0
  {
    assert reserve.Count(10) >= 0 && reserve.Count(50) >= 0 && reserve.Count(100) >= 0;
    assert reserve.Count(500) >= 0 && reserve.Count(1000) >= 0 && reserve.Count(5000) >= 0;
    assert reserve.Count(10000) >= 0 && reserve.Count(50000) >= 0;
  }

  /** Replacing the count of `d` changes the total by `d` per unit of difference. */
  lemma TotalWith(reserve: ChangeReserve, d: Denomination, n: int)
    ensures GetTotalChangeAmount(reserve.With(d, n)) ==
            GetTotalChangeAmount(reserve) + d * (n - reserve.Count(d))
  {
  }

  /** Filling an empty bucket of `d` with `n` units adds `d * n`. */
  lemma TotalWithFromZero(reserve: ChangeReserve, d: Denomination, n: int)
    requires reserve.Count(d) == 0
    ensures GetTotalChangeAmount(reserve.With(d, n)) == GetTotalChangeAmount(reserve) + d * n
  {
  }

  /** One more unit of `d` adds exactly `d` to the total. */
  lemma TotalIncrement(reserve: ChangeReserve, d: Denomination)
    ensures GetTotalChangeAmount(reserve.With(d, reserve.Count(d) + 1)) == GetTotalChangeAmount(reserve) + d
  {
    TotalWith(reserve, d, reserve.Count(d) + 1);
  }

  /** The total of a count-wise sum is the sum of the totals. */
  lemma TotalAdditive(a: ChangeReserve, b: ChangeReserve)
    ensures GetTotalChangeAmount(Add(a, b)) == GetTotalChangeAmount(a) + GetTotalChangeAmount(b)
  {
  }

  /** Every face value is a multiple of 10, so every total is. */
  lemma TotalMultipleOfTen(reserve: ChangeReserve)
    ensures GetTotalChangeAmount(reserve) % 10 == 0
  {
    var k := reserve.n10 + reserve.n50 * 5 + reserve.n100 * 10 + reserve.n500 * 50 +
             reserve.n1000 * 100 + reserve.n5000 * 500 + reserve.n10000 * 1000 + reserve.n50000 * 5000;
    assert GetTotalChangeAmount(reserve) == 10 * k;
  }
}
