/** The cheap "can we make change at all" test (src/utils/canMakeChange.ts). */
module ChangeFeasibility {
  import opened Types

  /** True when the reserve holds at least one 100, one 500 and one 1000 unit.
      A heuristic: it looks at no other denomination and at no amount. */
  function CanMakeChange(reserve: ChangeReserve): bool {
    reserve.Count(100) > 0 && reserve.Count(500) > 0 && reserve.Count(1000) > 0
  }

  /** The verdict depends only on the 100, 500 and 1000 counts. */
  lemma CanMakeChangeIgnoresOtherCounts(a: ChangeReserve, b: ChangeReserve)
    requires a.Count(100) == b.Count(100) && a.Count(500) == b.Count(500) && a.Count(1000) == b.Count(1000)
    ensures CanMakeChange(a) == CanMakeChange(b)
  {
  }

  /** Raising one count never withdraws the verdict. */
  lemma CanMakeChangeMonotone(reserve: ChangeReserve, d: Denomination, n: int)
    requires n >= reserve.Count(d)
    ensures CanMakeChange(reserve) ==> CanMakeChange(reserve.With(d, n))
  {
  }

  /** An empty reserve cannot make change. */
  lemma EmptyReserveCannotMakeChange()
    ensures !CanMakeChange(EmptyReserve)
  {
  }

  /** The reserve the product listing ships (app/api/listProducts.ts) passes the test. */
  const ListedReserve := ChangeReserve(10, 10, 20, 20, 10, 5, 3, 0)

  lemma ListedReserveCanMakeChange()
    ensures CanMakeChange(ListedReserve)
  {
  }
}
