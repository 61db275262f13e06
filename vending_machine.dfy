/**
 * The transaction state machine (src/machines/vendingMachine.ts) as a pure step function.
 * An event either matches a guarded transition of the current state, whose actions run
 * first and whose target's entry actions run after, or it is ignored.
 */
module VendingMachine {
  import opened Types

  /** The machine's extended state (`VendingMachineContext`); `None` stands for `null`. */
  datatype Context = Context(
    balance: int,
    changeReserve: ChangeReserve,
    changeAvailable: bool,
    paymentMethod: PaymentMethod,
    selectedDrink: Option<Product>,
    products: seq<Product>,
    errorMessage: Option<string>)

  /** The state value together with the context. */
  datatype Snapshot = Snapshot(value: StateValue, context: Context)

  /** `products.find(p => p.id === id)`: the first product with that id, if any. */
  function Find(products: seq<Product>, id: string): (r: Option<Product>)
    ensures r.Some? ==> r.value.id == id
    ensures r.None? <==> forall k :: 0 <= k < |products| ==> products[k].id != id
    ensures r.Some? ==> exists k :: 0 <= k < |products| && products[k] == r.value &&
                                    forall j :: 0 <= j < k ==> products[j].id != id
  {
    if products == [] then None
    else if products[0].id == id then Some(products[0])
    else
      var r := Find(products[1..], id);
      assert r.Some? ==> exists k :: 0 <= k < |products[1..]| && products[1..][k] == r.value &&
                                     forall j :: 0 <= j < k ==> products[1..][j].id != id;
      assert r.Some? ==> exists k :: 1 <= k < |products| && products[k] == r.value &&
                                     forall j :: 0 <= j < k ==> products[j].id != id;
      r
  }

  /** `currentProduct?.stock ?? 0`: the stock of the first product with that id; a missing id counts as 0. */
  function StockOf(products: seq<Product>, id: string): int {
    match Find(products, id)
    case Some(p) => p.stock
    case None => 0
  }

  // Guards. Each SELECT_DRINK guard answers false for any other event.

  predicate CanPurchaseGuard(c: Context, e: Event) {
    e.SelectDrink? && c.balance >= e.product.price && StockOf(c.products, e.product.id) > 0
  }

  predicate HasStock(c: Context, e: Event) {
    e.SelectDrink? && StockOf(c.products, e.product.id) > 0
  }

  predicate ChangeAvailable(c: Context) {
    c.changeAvailable
  }

  predicate ChangeNotAvailable(c: Context) {
    !c.changeAvailable
  }

  // Actions: each `assign` rewrites some context fields and keeps the others.

  function AssignBalance(c: Context, e: Event): Context {
    if e.InsertCash? then c.(balance := c.balance + e.amount) else c
  }

  function AssignPaymentMethodCash(c: Context): Context {
    c.(paymentMethod := Cash)
  }

  function AssignPaymentMethodCard(c: Context): Context {
    c.(paymentMethod := Card)
  }

  /** The source's `selectDrink` action. */
  function AssignSelectedDrink(c: Context, e: Event): Context {
    c.(selectedDrink := if e.SelectDrink? then Some(e.product) else None)
  }

  /** One product with its stock lowered by one when its id is `id`. */
  function DecrementIf(p: Product, id: string): Product {
    if p.id == id then p.(stock := p.stock - 1) else p
  }

  /** `products.map(...)`: every product whose id is `id` loses one unit of stock. */
  function Decremented(products: seq<Product>, id: string): seq<Product> {
    seq(|products|, k requires 0 <= k < |products| => DecrementIf(products[k], id))
  }

  function DecrementStock(c: Context): Context {
    if c.selectedDrink.None? then c
    else c.(products := Decremented(c.products, c.selectedDrink.value.id))
  }

  /** Only a cash sale with a selected drink takes the price off the balance. */
  function DeductBalance(c: Context): Context {
    if c.paymentMethod == Cash && c.selectedDrink.Some? then c.(balance := c.balance - c.selectedDrink.value.price)
    else c
  }

  function RefundBalance(c: Context): Context {
    c.(balance := 0)
  }

  /** Copies the reserve unchanged and marks change as available, whatever the event. */
  function UpdateChangeReserve(c: Context, e: Event): Context {
    c.(changeReserve := c.changeReserve, changeAvailable := true)
  }

  /** The failure's message, or "Unknown error" for any other event. */
  function SetError(c: Context, e: Event): Context {
    c.(errorMessage := Some(
      match e
      case PaymentFailure(m) => m
      case DispenseFailure(m) => m
      case _ => "Unknown error"))
  }

  function ClearError(c: Context): Context {
    c.(errorMessage := None)
  }

  function ResetState(c: Context): Context {
    c.(balance := 0, paymentMethod := NoPayment, selectedDrink := None, errorMessage := None)
  }

  /** The transition table: the target and the context after the transition's own actions,
      or `None` when the state has no handler for the event or its guard is false. */
  function Transition(value: StateValue, c: Context, e: Event): Option<Snapshot> {
    match value
    case Idle =>
      (match e
       case InsertCash(_) =>
         if ChangeAvailable(c) then Some(Snapshot(CashInserted, AssignPaymentMethodCash(AssignBalance(c, e)))) else None
       case InsertCard => Some(Snapshot(CardInserted, c))
       case CheckChange => if ChangeNotAvailable(c) then Some(Snapshot(ChangeShortage, c)) else None
       case _ => None)
    case CashInserted =>
      (match e
       case InsertCash(_) => Some(Snapshot(CashInserted, AssignBalance(c, e)))
       case InsertCard => Some(Snapshot(CardInserted, AssignPaymentMethodCard(RefundBalance(c))))
       case SelectDrink(_) =>
         if CanPurchaseGuard(c, e) then Some(Snapshot(Dispensing, AssignSelectedDrink(c, e))) else None
       case Refund => Some(Snapshot(Refunding, c))
       case _ => None)
    case CardInserted =>
      (match e
       case SelectDrink(_) =>
         if HasStock(c, e) then Some(Snapshot(ProcessingPayment, AssignSelectedDrink(c, e))) else None
       case _ => None)
    case ProcessingPayment =>
      (match e
       case PaymentSuccess => Some(Snapshot(Dispensing, c))
       case PaymentFailure(_) => Some(Snapshot(Error, SetError(c, e)))
       case _ => None)
    case Dispensing =>
      (match e
       case DispenseSuccess => Some(Snapshot(Idle, c))
       case DispenseFailure(_) => Some(Snapshot(Error, SetError(c, e)))
       case _ => None)
    case Refunding =>
      (match e
       case RefundComplete => Some(Snapshot(Idle, c))
       case _ => None)
    case ChangeShortage =>
      (match e
       case InsertCard => Some(Snapshot(CardInserted, c))
       case ChangeReplenished(_) => Some(Snapshot(Idle, UpdateChangeReserve(c, e)))
       case _ => None)
    case Error =>
      (match e
       case RefundComplete => Some(Snapshot(Idle, ClearError(c)))
       case _ => None)
  }

  /** The entry actions of a state, run with the event that caused the transition. */
  function Entry(value: StateValue, c: Context, e: Event): Context {
    match value
    case Idle => ResetState(c)
    case CardInserted => AssignPaymentMethodCard(c)
    case Dispensing => DeductBalance(DecrementStock(c))
    case Refunding => RefundBalance(c)
    case Error => SetError(RefundBalance(c), e)
    case _ => c
  }

  /** One event: transition actions, then the target's entry actions; an unmatched event is ignored. */
  function Step(s: Snapshot, e: Event): Snapshot {
    match Transition(s.value, s.context, e)
    case None => s
    case Some(t) => Snapshot(t.value, Entry(t.value, t.context, e))
  }

  /** A sequence of events, one after another. */
  function Run(s: Snapshot, es: seq<Event>): Snapshot
    decreases |es|
  {
    if es == [] then s else Run(Step(s, es[0]), es[1..])
  }

  /** The context the machine is built with: the given products and reserve, everything else empty. */
  function InitialContext(init: InitialMachineState): Context {
    Context(0, init.changeReserve, init.changeAvailable, NoPayment, None, init.products, None)
  }

  /** Starting the machine enters idle, whose entry action resets the transaction fields. */
  function InitialSnapshot(init: InitialMachineState): Snapshot {
    Snapshot(Idle, ResetState(InitialContext(init)))
  }
}
