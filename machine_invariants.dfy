/** What every reachable snapshot of the machine satisfies (src/machines/vendingMachine.ts:124-223). */
module MachineInvariants {
  import opened Types
  import opened VendingMachine

  ghost predicate StocksNonNegative(products: seq<Product>) {
    forall k :: 0 <= k < |products| ==> products[k].stock >= 0
  }

  ghost predicate UniqueIds(products: seq<Product>) {
    forall j, k :: 0 <= j < k < |products| ==> products[j].id != products[k].id
  }

  /** The only events the machine cannot absorb safely are negative cash insertions. */
  predicate WellFormed(e: Event) {
    e.InsertCash? ==> e.amount >= 0
  }

  /** What each state value implies about the transaction fields of the context. */
  ghost predicate StateFacts(value: StateValue, c: Context) {
    match value
    case Idle =>
      c.balance == 0 && c.paymentMethod == NoPayment && c.selectedDrink.None?
    case CashInserted =>
      c.paymentMethod == Cash && c.selectedDrink.None?
    case CardInserted =>
      c.balance == 0 && c.paymentMethod == Card && c.selectedDrink.None?
    case ProcessingPayment =>
      c.balance == 0 && c.paymentMethod == Card && c.selectedDrink.Some? &&
      StockOf(c.products, c.selectedDrink.value.id) > 0
    case Dispensing =>
      c.paymentMethod != NoPayment && c.selectedDrink.Some?
    case Refunding =>
      c.balance == 0 && c.paymentMethod == Cash && c.selectedDrink.None?
    case ChangeShortage =>
      c.balance == 0 && c.paymentMethod == NoPayment && c.selectedDrink.None? && !c.changeAvailable
    case Error =>
      c.balance == 0 && c.paymentMethod != NoPayment && c.selectedDrink.Some?
  }

  /** The invariant: balance and stocks are never negative, product ids stay unique,
      an error message is present exactly in the error state, and the per-state facts hold. */
  ghost predicate Inv(s: Snapshot) {
    s.context.balance >= 0 &&
    StocksNonNegative(s.context.products) &&
    UniqueIds(s.context.products) &&
    (s.context.errorMessage.Some? <==> s.value == Error) &&
    StateFacts(s.value, s.context)
  }

  /** With unique ids, every product carrying `id` is the one `Find` returns. */
  lemma FindUnique(products: seq<Product>, id: string, k: int)
    requires UniqueIds(products) && 0 <= k < |products| && products[k].id == id
    ensures Find(products, id) == Some(products[k])
  {
    var r := Find(products, id);
    var j :| 0 <= j < |products| && products[j] == r.value && forall i :: 0 <= i < j ==> products[i].id != id;
    assert j == k;
  }

  /** Decrementing a product that is in stock keeps every stock non-negative and every id. */
  lemma DecrementedKeepsInvariant(products: seq<Product>, id: string)
    requires StocksNonNegative(products) && UniqueIds(products) && StockOf(products, id) > 0
    ensures StocksNonNegative(Decremented(products, id)) && UniqueIds(Decremented(products, id))
  {
    var ps := Decremented(products, id);
    forall k | 0 <= k < |ps| ensures ps[k].stock >= 0 {
      if products[k].id == id {
        FindUnique(products, id, k);
      }
    }
  }

  /** Why the invariant needs unique ids: the guard looks only at the first product with the id,
      while the decrement lowers every product with it, so a duplicate that is out of stock
      goes below zero. */
  lemma DuplicateIdsBreakStock()
    ensures var a := Product("a", "a", 600, 1);
            var s := Snapshot(CashInserted, Context(1000, EmptyReserve, true, Cash, None, [a, a.(stock := 0)], None));
            var t := Step(s, SelectDrink(a));
            StocksNonNegative(s.context.products) && !UniqueIds(s.context.products) &&
            t.value == Dispensing && t.context.products[1].stock == -1 &&
            !StocksNonNegative(t.context.products)
  {
    var a := Product("a", "a", 600, 1);
    var ps := [a, a.(stock := 0)];
    assert Find(ps, "a") == Some(a);
    assert Decremented(ps, "a")[1] == DecrementIf(ps[1], "a");
  }

  /** The initial snapshot satisfies the invariant when the catalog does. */
  lemma InitialInv(init: InitialMachineState)
    requires StocksNonNegative(init.products) && UniqueIds(init.products)
    ensures Inv(InitialSnapshot(init))
  {
  }

  /** Entering idle (from any state) establishes the idle facts. */
  lemma EnterIdle(c: Context, e: Event)
    requires c.balance >= 0 && StocksNonNegative(c.products) && UniqueIds(c.products)
    ensures Inv(Snapshot(Idle, Entry(Idle, c, e)))
  {
  }

  /** Entering error establishes the error facts, given a started payment and a selected drink. */
  lemma EnterError(c: Context, e: Event)
    requires StocksNonNegative(c.products) && UniqueIds(c.products)
    requires c.paymentMethod != NoPayment && c.selectedDrink.Some?
    ensures Inv(Snapshot(Error, Entry(Error, c, e)))
  {
  }

  /** Entering dispensing with a drink that is in stock and, for cash, paid for. */
  lemma EnterDispensing(c: Context, e: Event)
    requires c.balance >= 0 && StocksNonNegative(c.products) && UniqueIds(c.products)
    requires c.errorMessage.None? && c.paymentMethod != NoPayment && c.selectedDrink.Some?
    requires StockOf(c.products, c.selectedDrink.value.id) > 0
    requires c.paymentMethod == Cash ==> c.balance >= c.selectedDrink.value.price
    ensures Inv(Snapshot(Dispensing, Entry(Dispensing, c, e)))
  {
    DecrementedKeepsInvariant(c.products, c.selectedDrink.value.id);
  }

  lemma IdlePreservesInv(s: Snapshot, e: Event)
    requires Inv(s) && WellFormed(e) && s.value == Idle
    ensures Inv(Step(s, e))
  {
  }

  lemma CashInsertedPreservesInv(s: Snapshot, e: Event)
    requires Inv(s) && WellFormed(e) && s.value == CashInserted
    ensures Inv(Step(s, e))
  {
    var c := s.context;
    if e.SelectDrink? && CanPurchaseGuard(c, e) {
      EnterDispensing(AssignSelectedDrink(c, e), e);
    }
  }

  lemma CardInsertedPreservesInv(s: Snapshot, e: Event)
    requires Inv(s) && WellFormed(e) && s.value == CardInserted
    ensures Inv(Step(s, e))
  {
  }

  lemma ProcessingPaymentPreservesInv(s: Snapshot, e: Event)
    requires Inv(s) && WellFormed(e) && s.value == ProcessingPayment
    ensures Inv(Step(s, e))
  {
    var c := s.context;
    if e.PaymentSuccess? {
      EnterDispensing(c, e);
    } else if e.PaymentFailure? {
      EnterError(SetError(c, e), e);
    }
  }

  lemma DispensingPreservesInv(s: Snapshot, e: Event)
    requires Inv(s) && WellFormed(e) && s.value == Dispensing
    ensures Inv(Step(s, e))
  {
    var c := s.context;
    if e.DispenseSuccess? {
      EnterIdle(c, e);
    } else if e.DispenseFailure? {
      EnterError(SetError(c, e), e);
    }
  }

  lemma OtherStatesPreserveInv(s: Snapshot, e: Event)
    requires Inv(s) && WellFormed(e)
    requires s.value == Refunding || s.value == ChangeShortage || s.value == Error
    ensures Inv(Step(s, e))
  {
  }

  /** Every well-formed event keeps the invariant. */
  lemma StepPreservesInv(s: Snapshot, e: Event)
    requires Inv(s) && WellFormed(e)
    ensures Inv(Step(s, e))
  {
    match s.value
    case Idle => IdlePreservesInv(s, e);
    case CashInserted => CashInsertedPreservesInv(s, e);
    case CardInserted => CardInsertedPreservesInv(s, e);
    case ProcessingPayment => ProcessingPaymentPreservesInv(s, e);
    case Dispensing => DispensingPreservesInv(s, e);
    case _ => OtherStatesPreserveInv(s, e);
  }

  /** After any sequence of well-formed events the invariant still holds. */
  lemma {:induction false} RunPreservesInv(s: Snapshot, es: seq<Event>)
    requires Inv(s)
    requires forall k :: 0 <= k < |es| ==> WellFormed(es[k])
    ensures Inv(Run(s, es))
    decreases |es|
  {
    if es != [] {
      StepPreservesInv(s, es[0]);
      assert forall k :: 0 <= k < |es[1..]| ==> WellFormed(es[1..][k]) by {
        forall k | 0 <= k < |es[1..]| ensures WellFormed(es[1..][k]) {
          assert es[1..][k] == es[k + 1];
        }
      }
      RunPreservesInv(Step(s, es[0]), es[1..]);
    }
  }

  /** Every machine built from a sound catalog and fed well-formed events keeps the invariant:
      balance and stocks non-negative, and an error message only in the error state. */
  lemma ReachableInv(init: InitialMachineState, es: seq<Event>)
    requires StocksNonNegative(init.products) && UniqueIds(init.products)
    requires forall k :: 0 <= k < |es| ==> WellFormed(es[k])
    ensures Inv(Run(InitialSnapshot(init), es))
    ensures Run(InitialSnapshot(init), es).context.balance >= 0
    ensures StocksNonNegative(Run(InitialSnapshot(init), es).context.products)
    ensures Run(InitialSnapshot(init), es).context.errorMessage.Some? <==> Run(InitialSnapshot(init), es).value == Error
  {
    InitialInv(init);
    RunPreservesInv(InitialSnapshot(init), es);
  }
}
