/** The behaviour the transaction machine promises, event by event (src/machines/vendingMachine.ts). */
module MachineProperties {
  import opened Types
  import opened VendingMachine
  import opened MachineInvariants

  // ---------------------------------------------------------------------------
  // Which events each state listens to

  /** The `on` keys of each state, independent of guards. */
  predicate Handles(value: StateValue, e: Event) {
    match value
    case Idle => e.InsertCash? || e.InsertCard? || e.CheckChange?
    case CashInserted => e.InsertCash? || e.InsertCard? || e.SelectDrink? || e.Refund?
    case CardInserted => e.SelectDrink?
    case ProcessingPayment => e.PaymentSuccess? || e.PaymentFailure?
    case Dispensing => e.DispenseSuccess? || e.DispenseFailure?
    case Refunding => e.RefundComplete?
    case ChangeShortage => e.InsertCard? || e.ChangeReplenished?
    case Error => e.RefundComplete?
  }

  /** The guarded handlers whose guard rejects the event in this context. */
  predicate GuardRejects(value: StateValue, c: Context, e: Event) {
    (value == Idle && e.InsertCash? && !ChangeAvailable(c)) ||
    (value == Idle && e.CheckChange? && !ChangeNotAvailable(c)) ||
    (value == CashInserted && e.SelectDrink? && !CanPurchaseGuard(c, e)) ||
    (value == CardInserted && e.SelectDrink? && !HasStock(c, e))
  }

  /** A transition fires exactly when the state handles the event and no guard rejects it. */
  lemma TransitionFiresIff(s: Snapshot, e: Event)
    ensures Transition(s.value, s.context, e).Some? <==> Handles(s.value, e) && !GuardRejects(s.value, s.context, e)
  {
  }

  /** An event the state does not handle, or whose guard fails, leaves state and context unchanged. */
  lemma IgnoredEventChangesNothing(s: Snapshot, e: Event)
    requires !Handles(s.value, e) || GuardRejects(s.value, s.context, e)
    ensures Step(s, e) == s
  {
    TransitionFiresIff(s, e);
  }

  // ---------------------------------------------------------------------------
  // Cash

  /** In idle, cash is accepted only when change is available; it then becomes the balance's
      increment and the payment method. */
  lemma IdleInsertCash(c: Context, amount: int)
    ensures Step(Snapshot(Idle, c), InsertCash(amount)) ==
            if c.changeAvailable then Snapshot(CashInserted, c.(balance := c.balance + amount, paymentMethod := Cash))
            else Snapshot(Idle, c)
  {
  }

  /** More cash re-enters cashInserted and adds exactly the amount. */
  lemma CashInsertedInsertCash(c: Context, amount: int)
    ensures Step(Snapshot(CashInserted, c), InsertCash(amount)) ==
            Snapshot(CashInserted, c.(balance := c.balance + amount))
  {
  }

  /** A drink is sold for cash exactly when the balance covers the event's price and the
      catalog's product with that id (a missing id counts as 0) is in stock; otherwise
      nothing changes, and no drink is selected. */
  lemma CashSelectDrink(c: Context, p: Product)
    ensures Step(Snapshot(CashInserted, c), SelectDrink(p)).value == Dispensing <==>
            c.balance >= p.price && StockOf(c.products, p.id) > 0
    ensures !(c.balance >= p.price && StockOf(c.products, p.id) > 0) ==>
            Step(Snapshot(CashInserted, c), SelectDrink(p)) == Snapshot(CashInserted, c)
  {
  }

  /** A product id missing from the catalog can never be sold. */
  lemma MissingProductNotSold(c: Context, p: Product)
    requires forall k :: 0 <= k < |c.products| ==> c.products[k].id != p.id
    ensures Step(Snapshot(CashInserted, c), SelectDrink(p)) == Snapshot(CashInserted, c)
    ensures Step(Snapshot(CardInserted, c), SelectDrink(p)) == Snapshot(CardInserted, c)
  {
    assert StockOf(c.products, p.id) == 0;
  }

  // ---------------------------------------------------------------------------
  // Dispensing

  /** Looking a product up after a decrement finds the same product, decremented if it was the target. */
  lemma {:induction false} FindDecremented(products: seq<Product>, id: string, target: string)
    ensures Find(Decremented(products, target), id) ==
            match Find(products, id)
            case Some(p) => Some(DecrementIf(p, target))
            case None => None
  {
    if products != [] {
      assert Decremented(products, target)[1..] == Decremented(products[1..], target);
      FindDecremented(products[1..], id, target);
    }
  }

  /** A decrement lowers the stock of its target by exactly one, if the target is listed,
      and leaves the stock of every other id alone. */
  lemma StockOfDecremented(products: seq<Product>, target: string, id: string)
    ensures StockOf(Decremented(products, target), id) ==
            if id == target && Find(products, id).Some? then StockOf(products, id) - 1 else StockOf(products, id)
  {
    FindDecremented(products, id, target);
  }

  /** Entering dispensing decrements by one every product carrying the selected drink's id,
      keeps every other product, and charges the price only for a cash sale. */
  lemma EnterDispensingEffect(c: Context, e: Event)
    requires c.selectedDrink.Some?
    ensures var d := c.selectedDrink.value;
            var c' := Entry(Dispensing, c, e);
            |c'.products| == |c.products| &&
            (forall k :: 0 <= k < |c.products| && c.products[k].id != d.id ==> c'.products[k] == c.products[k]) &&
            (forall k :: 0 <= k < |c.products| && c.products[k].id == d.id ==>
               c'.products[k] == c.products[k].(stock := c.products[k].stock - 1)) &&
            c'.balance == (if c.paymentMethod == Cash then c.balance - d.price else c.balance) &&
            c'.paymentMethod == c.paymentMethod && c'.selectedDrink == c.selectedDrink &&
            c'.changeReserve == c.changeReserve && c'.errorMessage == c.errorMessage
  {
  }

  /** The stock the machine reports for the sold drink drops by one; other ids keep theirs. */
  lemma EnterDispensingStock(c: Context, e: Event, id: string)
    requires c.selectedDrink.Some? && Find(c.products, c.selectedDrink.value.id).Some?
    ensures var c' := Entry(Dispensing, c, e);
            StockOf(c'.products, id) ==
            if id == c.selectedDrink.value.id then StockOf(c.products, id) - 1 else StockOf(c.products, id)
  {
    StockOfDecremented(c.products, c.selectedDrink.value.id, id);
  }

  /** A cash sale: the drink is selected, its stock drops and its price comes off the balance. */
  lemma CashSale(c: Context, p: Product)
    requires c.paymentMethod == Cash && c.balance >= p.price && StockOf(c.products, p.id) > 0
    ensures Step(Snapshot(CashInserted, c), SelectDrink(p)) ==
            Snapshot(Dispensing, c.(selectedDrink := Some(p), products := Decremented(c.products, p.id),
                                    balance := c.balance - p.price))
  {
  }

  /** Only entering dispensing changes the catalog. */
  lemma OnlyDispensingChangesProducts(s: Snapshot, e: Event)
    requires Step(s, e).context.products != s.context.products
    ensures Step(s, e).value == Dispensing && s.value != Dispensing
  {
  }

  // ---------------------------------------------------------------------------
  // Card

  /** Entering cardInserted makes card the payment method. */
  lemma EnterCardInserted(c: Context, e: Event)
    ensures Entry(CardInserted, c, e) == c.(paymentMethod := Card)
  {
  }

  /** With a card, a drink in stock is selected and the payment starts; the balance plays no part. */
  lemma CardSelectDrink(c: Context, p: Product)
    ensures Step(Snapshot(CardInserted, c), SelectDrink(p)) ==
            if StockOf(c.products, p.id) > 0 then Snapshot(ProcessingPayment, c.(selectedDrink := Some(p)))
            else Snapshot(CardInserted, c)
  {
  }

  /** An approved card payment moves on to dispensing without touching a card-paid balance. */
  lemma CardPaymentSucceeds(c: Context)
    requires c.paymentMethod == Card && c.selectedDrink.Some?
    ensures Step(Snapshot(ProcessingPayment, c), PaymentSuccess) ==
            Snapshot(Dispensing, c.(products := Decremented(c.products, c.selectedDrink.value.id)))
  {
  }

  /** A failed payment or dispense ends in error with the event's message and no balance. */
  lemma FailureGoesToError(c: Context, m: string)
    ensures Step(Snapshot(ProcessingPayment, c), PaymentFailure(m)) ==
            Snapshot(Error, c.(balance := 0, errorMessage := Some(m)))
    ensures Step(Snapshot(Dispensing, c), DispenseFailure(m)) ==
            Snapshot(Error, c.(balance := 0, errorMessage := Some(m)))
  {
  }

  /** Error is entered only by a failure event, so its message is always the failure's own
      and the "Unknown error" fallback of `SetError` is never shown. */
  lemma ErrorMessageFromFailure(s: Snapshot, e: Event)
    requires Transition(s.value, s.context, e).Some? && Step(s, e).value == Error
    ensures e.PaymentFailure? || e.DispenseFailure?
    ensures Step(s, e).context.errorMessage == Some(e.message)
  {
  }

  // ---------------------------------------------------------------------------
  // Resets

  /** Every transition into idle clears the transaction; every transition into refunding or
      error empties the balance. */
  lemma EnteringResets(s: Snapshot, e: Event)
    requires Transition(s.value, s.context, e).Some?
    ensures var t := Step(s, e);
            (t.value == Idle ==> t.context.balance == 0 && t.context.paymentMethod == NoPayment &&
                                 t.context.selectedDrink.None? && t.context.errorMessage.None?) &&
            (t.value == Refunding || t.value == Error ==> t.context.balance == 0)
  {
  }

  /** Switching from cash to card gives up the balance. */
  lemma CashToCard(c: Context)
    ensures Step(Snapshot(CashInserted, c), InsertCard) ==
            Snapshot(CardInserted, c.(balance := 0, paymentMethod := Card))
  {
  }

  /** A refund is only possible from cashInserted, and it empties the balance. */
  lemma RefundOnlyFromCash(s: Snapshot)
    ensures Step(s, Refund) == if s.value == CashInserted then Snapshot(Refunding, s.context.(balance := 0)) else s
  {
  }

  /** Completing the refund or clearing the error returns to a reset idle. */
  lemma RefundCompleteReturnsToIdle(c: Context)
    ensures Step(Snapshot(Refunding, c), RefundComplete) == Snapshot(Idle, ResetState(c))
    ensures Step(Snapshot(Error, c), RefundComplete) == Snapshot(Idle, ResetState(c))
  {
  }

  // ---------------------------------------------------------------------------
  // Change shortage

  /** CHECK_CHANGE moves idle to changeShortage only when change is not available. */
  lemma CheckChangeInIdle(c: Context)
    ensures Step(Snapshot(Idle, c), CheckChange) ==
            if c.changeAvailable then Snapshot(Idle, c) else Snapshot(ChangeShortage, c)
  {
  }

  /** During a change shortage a card is still accepted. */
  lemma ShortageAcceptsCard(c: Context)
    ensures Step(Snapshot(ChangeShortage, c), InsertCard) == Snapshot(CardInserted, c.(paymentMethod := Card))
  {
  }

  /** Replenishing returns to idle with change available and the reserve as it was, whatever the amount. */
  lemma ReplenishReturnsToIdle(c: Context, amount: int)
    ensures Step(Snapshot(ChangeShortage, c), ChangeReplenished(amount)) ==
            Snapshot(Idle, ResetState(c).(changeAvailable := true))
    ensures Step(Snapshot(ChangeShortage, c), ChangeReplenished(amount)).context.changeReserve == c.changeReserve
  {
  }

  /** Change availability only ever changes by replenishing during a shortage. */
  lemma ChangeAvailabilityOnlyByReplenishing(s: Snapshot, e: Event)
    requires Step(s, e).context.changeAvailable != s.context.changeAvailable
    ensures s.value == ChangeShortage && e.ChangeReplenished? && Step(s, e).context.changeAvailable
  {
  }

  // ---------------------------------------------------------------------------
  // The reserve

  /** No event changes the change reserve. */
  lemma StepKeepsReserve(s: Snapshot, e: Event)
    ensures Step(s, e).context.changeReserve == s.context.changeReserve
  {
  }

  /** No sequence of events changes the change reserve. */
  lemma {:induction false} RunKeepsReserve(s: Snapshot, es: seq<Event>)
    ensures Run(s, es).context.changeReserve == s.context.changeReserve
    decreases |es|
  {
    if es != [] {
      StepKeepsReserve(s, es[0]);
      RunKeepsReserve(Step(s, es[0]), es[1..]);
    }
  }

  // ---------------------------------------------------------------------------
  // Concrete runs with the catalog and reserve of the machine's test suite

  const Water := Product("water", "물", 600, 10)
  const Coke := Product("coke", "콜라", 1200, 5)
  const Coffee := Product("coffee", "커피", 1500, 0)
  const TestInit := InitialMachineState([Water, Coke, Coffee], ChangeReserve(10, 10, 10, 10, 10, 5, 3, 1), true)

  /** The machine starts in idle with an empty transaction and the given catalog. */
  lemma StartsIdle()
    ensures InitialSnapshot(TestInit) ==
            Snapshot(Idle, Context(0, TestInit.changeReserve, true, NoPayment, None, [Water, Coke, Coffee], None))
  {
  }

  /** 1000 + 500 + 100 inserted in a row gives a balance of 1600. */
  lemma CashAccumulates()
    ensures var s := Run(InitialSnapshot(TestInit), [InsertCash(1000), InsertCash(500), InsertCash(100)]);
            s.value == CashInserted && s.context.balance == 1600 && s.context.paymentMethod == Cash
  {
    var s0 := InitialSnapshot(TestInit);
    var s1 := Step(s0, InsertCash(1000));
    var s2 := Step(s1, InsertCash(500));
    var s3 := Step(s2, InsertCash(100));
    assert s3.context.balance == 1600;
    assert Run(s3, []) == s3;
    assert Run(s2, [InsertCash(100)]) == s3;
    assert Run(s1, [InsertCash(500), InsertCash(100)]) == s3;
  }

  /** Without change available, cash is refused. */
  lemma CashRefusedWithoutChange()
    ensures var s := InitialSnapshot(TestInit.(changeAvailable := false));
            Step(s, InsertCash(1000)) == s
  {
  }

  /** Buying water (600) with 1000: dispensing with 400 left and one bottle fewer; once
      dispensed, the idle reset empties the balance. */
  lemma BuyWaterWithCash()
    ensures var s2 := Step(Step(InitialSnapshot(TestInit), InsertCash(1000)), SelectDrink(Water));
            s2.value == Dispensing && s2.context.balance == 400 &&
            StockOf(s2.context.products, "water") == 9 &&
            Step(s2, DispenseSuccess).value == Idle && Step(s2, DispenseSuccess).context.balance == 0
  {
    var s1 := Step(InitialSnapshot(TestInit), InsertCash(1000));
    assert s1.context.products == [Water, Coke, Coffee];
    assert StockOf(s1.context.products, "water") == 10;
    var s2 := Step(s1, SelectDrink(Water));
    StockOfDecremented(s1.context.products, "water", "water");
  }

  /** Coffee is out of stock: with 2000 inserted, selecting it changes nothing. */
  lemma CoffeeOutOfStock()
    ensures var s1 := Step(InitialSnapshot(TestInit), InsertCash(2000));
            Step(s1, SelectDrink(Coffee)) == s1
  {
    var s1 := Step(InitialSnapshot(TestInit), InsertCash(2000));
    assert s1.context.products == [Water, Coke, Coffee];
    assert StockOf(s1.context.products, "coffee") == 0;
  }

  /** Paying for water by card: payment, then dispensing with one bottle fewer and the balance
      still 0. */
  lemma BuyWaterByCard()
    ensures var s3 := Step(Step(Step(InitialSnapshot(TestInit), InsertCard), SelectDrink(Water)), PaymentSuccess);
            s3.value == Dispensing && s3.context.balance == 0 && s3.context.paymentMethod == Card &&
            StockOf(s3.context.products, "water") == 9
  {
    var s1 := Step(InitialSnapshot(TestInit), InsertCard);
    assert s1.context.products == [Water, Coke, Coffee];
    assert StockOf(s1.context.products, "water") == 10;
    var s2 := Step(s1, SelectDrink(Water));
    assert s2.value == ProcessingPayment;
    StockOfDecremented(s2.context.products, "water", "water");
  }

  /** A refused card payment ends in error with the refusal's message. */
  lemma CardPaymentRefused(m: string)
    ensures var s3 := Step(Step(Step(InitialSnapshot(TestInit), InsertCard), SelectDrink(Water)), PaymentFailure(m));
            s3.value == Error && s3.context.errorMessage == Some(m) && s3.context.balance == 0
  {
    var s1 := Step(InitialSnapshot(TestInit), InsertCard);
    assert s1.context.products == [Water, Coke, Coffee];
    assert StockOf(s1.context.products, "water") == 10;
  }
}
