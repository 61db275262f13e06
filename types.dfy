/** The shared data model of the vending machine (src/types/index.ts). */
module Types {

  datatype Option<+T> = None | Some(value: T)

  /** A catalog entry. Prices and stock counts are JavaScript numbers in the
      source; here they are unbounded integers. */
  datatype Product = Product(id: string, name: string, price: int, stock: int)

  /** The eight face values a change reserve counts. */
  type Denomination = d: int
    | d == 10 || d == 50 || d == 100 || d == 500 || d == 1000 || d == 5000 || d == 10000 || d == 50000
    witness 10

  /** The denominations in the order the change maker visits them: largest first. */
  const Denominations: seq<Denomination> := [50000, 10000, 5000, 1000, 500, 100, 50, 10]

  /** A count per denomination; the source's `ChangeReserve` record has exactly these eight keys. */
  datatype ChangeReserve = ChangeReserve(
    n10: int, n50: int, n100: int, n500: int, n1000: int, n5000: int, n10000: int, n50000: int)
  {
    /** `reserve[d]` */
    function Count(d: Denomination): int {
      if d == 10 then n10
      else if d == 50 then n50
      else if d == 100 then n100
      else if d == 500 then n500
      else if d == 1000 then n1000
      else if d == 5000 then n5000
      else if d == 10000 then n10000
      else n50000
    }

    /** `reserve[d] = n`: the same reserve with one count replaced. */
    function With(d: Denomination, n: int): (r: ChangeReserve)
      ensures r.Count(d) == n
      ensures forall e: Denomination :: e != d ==> r.Count(e) == Count(e)
    {
      if d == 10 then this.(n10 := n)
      else if d == 50 then this.(n50 := n)
      else if d == 100 then this.(n100 := n)
      else if d == 500 then this.(n500 := n)
      else if d == 1000 then this.(n1000 := n)
      else if d == 5000 then this.(n5000 := n)
      else if d == 10000 then this.(n10000 := n)
      else this.(n50000 := n)
    }
  }

  const EmptyReserve := ChangeReserve(0, 0, 0, 0, 0, 0, 0, 0)

  ghost predicate AllNonNegative(r: ChangeReserve) {
    forall d: Denomination :: r.Count(d) >= 0
  }

  /** Two reserves with the same count for every denomination are the same reserve. */
  lemma ReserveExtensionality(a: ChangeReserve, b: ChangeReserve)
    requires forall d: Denomination :: a.Count(d) == b.Count(d)
    ensures a == b
  {
    assert a.Count(10) == b.Count(10) && a.Count(50) == b.Count(50);
    assert a.Count(100) == b.Count(100) && a.Count(500) == b.Count(500);
    assert a.Count(1000) == b.Count(1000) && a.Count(5000) == b.Count(5000);
    assert a.Count(10000) == b.Count(10000) && a.Count(50000) == b.Count(50000);
  }

  /** `'cash' | 'card' | null`; NoPayment stands for `null`. */
  datatype PaymentMethod = NoPayment | Cash | Card

  /** The machine's eight state values. */
  datatype StateValue =
    | Idle
    | CashInserted
    | CardInserted
    | ProcessingPayment
    | Dispensing
    | Refunding
    | ChangeShortage
    | Error

  /** The events the machine accepts. */
  datatype Event =
    | InsertCash(amount: int)
    | InsertCard
    | SelectDrink(product: Product)
    | PaymentSuccess
    | PaymentFailure(message: string)
    | DispenseSuccess
    | DispenseFailure(message: string)
    | Refund
    | RefundComplete
    | CheckChange
    | ChangeReplenished(amount: int)

  /** What a machine is built from. */
  datatype InitialMachineState =
    InitialMachineState(products: seq<Product>, changeReserve: ChangeReserve, changeAvailable: bool)

  /** The label of a product button. */
  datatype ButtonState = Disabled | Active | Purchasable
}
