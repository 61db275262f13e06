# Vending machine: transaction state machine and change making, in Dafny

This project models the core of a vending machine front end written in TypeScript:

- **The transaction state machine** (`src/machines/vendingMachine.ts`). An xstate machine with eight states: idle, cashInserted, cardInserted, processingPayment, dispensing, refunding, changeShortage and error. Its context holds the balance, the change reserve, the change flag, the payment method, the selected drink, the product catalog and an error message.
  - `vending_machine.dfy` gives its guards, its `assign` actions, its transition table and its entry actions as pure functions. `Step` applies an event the way xstate does: the transition's own actions first, then the target's entry actions. An event the state does not handle, or whose guard fails, is ignored.
  - `machine_actor.dfy` wraps `Step` in a `Machine` class whose `Send` replaces the state value and the context in place.
  - `machine_invariants.dfy` proves that every reachable snapshot keeps the balance and every stock non-negative. An error message is present exactly in the error state. A fixed set of facts holds in each state, for example "processingPayment always has a selected drink that is in stock".
  - `machine_properties.dfy` states the machine's behaviour event by event. It also holds a few concrete runs with the test suite's catalog and reserve (ids, names, prices and stocks).
- **Greedy change making** (`src/utils/calculateChange.ts`), in `change_calculator.dfy`. `CalculateChange` keeps the source's loop over the eight denominations, largest first, working on a local copy of the reserve.
  - It is proved equal to the spec function `ChangeOutcome`, which is built on the independent recursive definition `GreedyPlan`.
  - The lemmas about them prove the remaining properties: the weighted sum of a successful breakdown equals the amount, each count is within the reserve, and every result has the shape the source promises.
- **Purchasability** (`src/utils/canPurchase.ts`, `src/utils/getButtonState.ts`), in `purchase.dfy` and `button_state.dfy`. This includes the agreement between the two: a button is "purchasable" exactly when a purchase is allowed.
- **Reserve helpers** (`src/utils/getTotalChangeAmount.ts`, `src/utils/canMakeChange.ts`), in `total_change.dfy` and `change_feasibility.dfy`.

The shared data model (`src/types/index.ts`) is in `types.dfy`.
- A change reserve is a record of eight counts.
- `Count`/`With` read and replace one count.
- `Denomination` is the subset type of the eight face values.
- `null` is `None` or `NoPayment`.
- Numbers are unbounded integers.

Where the code and the repository's tests disagree, the model follows the code. The code behaves as follows:
- Entering idle resets the balance to 0. The tests expect a left-over 400 to be kept.
- Switching from cash to card empties the balance. The tests expect 1000.
- There is no EJECT_CARD event.
- REFUND is handled only in cashInserted, so not in idle, cardInserted or error.
- Error is left only by REFUND_COMPLETE, which clears the message and returns to a reset idle.
- Entering error empties the balance.
- The selected drink stays set in error until idle resets it.
- No action ever changes the change reserve: not cash insertion, not refunds, not CHANGE_REPLENISHED, which copies the reserve and ignores its amount.
- `calculateChange` accepts a negative amount and reports success with an empty breakdown.
- The module only exports a machine with an empty hard-coded context. The constructor here takes `{products, changeReserve, changeAvailable}` as the tests build it, with the other fields as in that context.

## Model

| member | source | states |
|---|---|---|
| TotalChange.GetTotalChangeAmount | src/utils/getTotalChangeAmount.ts:3-14 | Σ d × count over the eight denominations; its properties are the TotalChange lemmas below |
| ChangeFeasibility.CanMakeChange | src/utils/canMakeChange.ts:3-7 | at least one 100, one 500 and one 1000 unit in the reserve; its properties are the ChangeFeasibility lemmas below |
| ChangeCalculator.GreedyPlan | src/utils/calculateChange.ts:16-31 | the greedy pass over the denominations as a recursive definition; used as the reference for `CalculateChange` |
| ChangeCalculator.PassStep | src/utils/calculateChange.ts:23-30 | one iteration of the loop body; `PassStepAgrees` states what it keeps |
| ChangeCalculator.ChangeOutcome | src/utils/calculateChange.ts:16-39 | the result of `calculateChange`; `ChangeOutcomeShape` and the lemmas after it state its properties |
| Purchase.CanPurchase | src/utils/canPurchase.ts:3-20 | whether a product can be bought; the Purchase lemmas below state each case |
| ButtonStates.GetButtonState | src/utils/getButtonState.ts:3-31 | a product's button state; the ButtonStates lemmas below state each case |
| VendingMachine.StockOf | src/machines/vendingMachine.ts:14-15 | `currentProduct?.stock ?? 0`: the first match's stock, 0 for a missing id; `StockOfDecremented` states how a sale changes it |
| VendingMachine.Decremented | src/machines/vendingMachine.ts:53-57 | the `products.map(...)` lowering every product with the id by one; `EnterDispensingEffect` and `FindDecremented` state its effect |
| VendingMachine.ChangeAvailable | src/machines/vendingMachine.ts:24 | the `changeAvailable` guard; `IdleInsertCash` states that cash is taken only when it holds |
| VendingMachine.ChangeNotAvailable | src/machines/vendingMachine.ts:25 | the `changeNotAvailable` guard; `CheckChangeInIdle` states that the shortage state is reached only when it holds |
| VendingMachine.AssignPaymentMethodCash | src/machines/vendingMachine.ts:36-38 | sets the method to cash; `IdleInsertCash` states the effect |
| VendingMachine.AssignPaymentMethodCard | src/machines/vendingMachine.ts:39-41 | sets the method to card; `CashToCard` and `EnterCardInserted` state the effect |
| VendingMachine.InitialContext | src/machines/vendingMachine.ts:106-123 | the machine's context with the given catalog, reserve and change flag and every other field empty; `StartsIdle` states the result |
| VendingMachine.CanPurchaseGuard | src/machines/vendingMachine.ts:10-16 | the `canPurchase` guard; `CashSelectDrink` states when it admits a sale |
| VendingMachine.HasStock | src/machines/vendingMachine.ts:17-23 | the `hasStock` guard; `CardSelectDrink` states when it admits a sale |
| VendingMachine.AssignBalance | src/machines/vendingMachine.ts:28-35 | adds an INSERT_CASH amount to the balance; `IdleInsertCash` and `CashInsertedInsertCash` state the effect |
| VendingMachine.AssignSelectedDrink | src/machines/vendingMachine.ts:42-49 | records the event's product; `CashSale` states the effect |
| VendingMachine.DecrementStock | src/machines/vendingMachine.ts:50-59 | lowers the selected drink's stock; `EnterDispensingEffect` and `StockOfDecremented` state the effect |
| VendingMachine.DeductBalance | src/machines/vendingMachine.ts:60-67 | takes the price off a cash balance; `EnterDispensingEffect` states the effect |
| VendingMachine.RefundBalance | src/machines/vendingMachine.ts:68-70 | empties the balance; `RefundOnlyFromCash` and `EnteringResets` state where it applies |
| VendingMachine.UpdateChangeReserve | src/machines/vendingMachine.ts:71-84 | keeps the reserve and sets change available; `ReplenishReturnsToIdle` states the effect |
| VendingMachine.SetError | src/machines/vendingMachine.ts:85-92 | records the failure's message; `ErrorMessageFromFailure` states which message is seen |
| VendingMachine.ClearError | src/machines/vendingMachine.ts:93-95 | removes the message; `RefundCompleteReturnsToIdle` states the effect |
| VendingMachine.ResetState | src/machines/vendingMachine.ts:96-101 | clears balance, method, drink and message; `EnteringResets` states the effect |
| VendingMachine.Transition | src/machines/vendingMachine.ts:124-223 | the `on` tables with their guards and transition actions; `TransitionFiresIff` states when one fires |
| VendingMachine.Entry | src/machines/vendingMachine.ts:124-223 | the `entry` actions of each state; `EnteringResets` and `EnterDispensingEffect` state their effect |
| VendingMachine.Step | src/machines/vendingMachine.ts:124-223 | one event, transition actions before entry actions; `StepPreservesInv` states the invariant it keeps |
| VendingMachine.InitialSnapshot | src/machines/vendingMachine.ts:104-126 | the started machine, idle after `resetState`; `InitialInv` and `StartsIdle` state what it satisfies |
| Types.ChangeReserve.With | src/utils/calculateChange.ts:28-29 | `reserve[d] = n` sets that one count and leaves the other seven as they were |
| Types.ReserveExtensionality | src/types/index.ts:10-19 | a reserve is determined by its eight counts |
| TotalChange.TotalIsWeightedSum | src/utils/getTotalChangeAmount.ts:4-13 | the total equals the recursively defined Σ d × count over the eight denominations |
| TotalChange.TotalOfEmpty | src/utils/getTotalChangeAmount.ts:4-13 | an all-zero reserve is worth 0 |
| TotalChange.TotalNonNegative | src/utils/getTotalChangeAmount.ts:4-13 | a reserve with no negative count has a non-negative total |
| TotalChange.TotalWith | src/utils/getTotalChangeAmount.ts:4-13 | replacing the count of d changes the total by d per unit of difference |
| TotalChange.TotalIncrement | src/utils/getTotalChangeAmount.ts:4-13 | one more unit of d adds exactly d |
| TotalChange.TotalAdditive | src/utils/getTotalChangeAmount.ts:4-13 | the total of a count-wise sum is the sum of the totals |
| TotalChange.TotalMultipleOfTen | src/utils/getTotalChangeAmount.ts:4-13 | every total is a multiple of 10 |
| ChangeFeasibility.CanMakeChangeIgnoresOtherCounts | src/utils/canMakeChange.ts:6 | reserves agreeing on the 100, 500 and 1000 counts get the same verdict |
| ChangeFeasibility.CanMakeChangeMonotone | src/utils/canMakeChange.ts:6 | raising any count never turns true into false |
| ChangeFeasibility.EmptyReserveCannotMakeChange | src/utils/canMakeChange.ts:6 | an all-zero reserve cannot make change |
| ChangeFeasibility.ListedReserveCanMakeChange | app/api/listProducts.ts:8-17 | the reserve the product listing ships passes the test, so its `changeAvailable` (line 41) is true |
| ChangeCalculator.Take | src/utils/calculateChange.ts:23-27 | the units taken are never negative and never more than available, are worth no more than what remains, and are positive whenever one unit fits and one is available |
| ChangeCalculator.GreedyOverWithinReserve | src/utils/calculateChange.ts:23-29 | every recorded count is 0 or between 1 and the reserve's count |
| ChangeCalculator.LeftOverIsUnpaid | src/utils/calculateChange.ts:22-31 | what remains after the pass is the amount minus the value of the recorded breakdown (remaining + Σ d × result[d] = amount) |
| ChangeCalculator.GreedyOverBounded | src/utils/calculateChange.ts:16-31 | for a non-negative amount the breakdown is worth between 0 and the amount, so 0 ≤ remaining ≤ amount |
| ChangeCalculator.GreedyOverNonPositive | src/utils/calculateChange.ts:23-27 | nothing (or a negative amount) to pay records nothing |
| ChangeCalculator.PassStepAgrees | src/utils/calculateChange.ts:22-31 | one loop iteration keeps the loop state in agreement with the greedy pass: the reserve copy is the reserve minus the breakdown, unvisited buckets are empty, and the plan and unpaid rest are unchanged |
| ChangeCalculator.PassOverAgrees | src/utils/calculateChange.ts:16-31 | after each prefix of the denominations the loop state agrees with the greedy pass |
| ChangeCalculator.PassOverIsGreedyPlan | src/utils/calculateChange.ts:16-31 | the whole loop produces the greedy plan, and it leaves unpaid exactly what the plan does not pay |
| ChangeCalculator.GreedyPlanFacts | src/utils/calculateChange.ts:11-31 | the plan stays within the reserve, is worth a multiple of 10, never overpays a non-negative amount, and is empty for a non-positive one |
| ChangeCalculator.ChangeOutcomeShape | src/utils/calculateChange.ts:34-39 | success iff a breakdown is returned; success means remaining 0 and, for a non-negative amount, a breakdown worth exactly the amount; failure means 0 < remaining ≤ amount |
| ChangeCalculator.ChangeOutcomeWithinReserve | src/utils/calculateChange.ts:20-39 | a returned breakdown takes from each denomination no more than the reserve holds |
| ChangeCalculator.ApplyingChangeKeepsReserveNonNegative | src/utils/calculateChange.ts:19-29 | paying a successful breakdown out of a non-negative reserve leaves every count non-negative |
| ChangeCalculator.ChangeOutcomeNonPositive | src/utils/calculateChange.ts:11-14 | amount 0 (or a negative amount) succeeds with an all-zero breakdown |
| ChangeCalculator.ChangeOutcomeNeedsMultipleOfTen | src/utils/calculateChange.ts:17-39 | a positive amount that is not a multiple of 10 always fails |
| ChangeCalculator.CalculateChange | src/utils/calculateChange.ts:3-40 | the loop on a local copy of the reserve returns the greedy outcome; success iff a breakdown is returned, success pays exactly the amount with remaining 0, failure returns 0 < remaining ≤ amount, and the breakdown stays within the reserve |
| Purchase.OutOfStockCannotPurchase | src/utils/canPurchase.ts:9 | stock ≤ 0 gives false whatever the other arguments |
| Purchase.CashPurchase | src/utils/canPurchase.ts:11-13 | with cash and stock > 0 the result is exactly changeAvailable ∧ balance ≥ price |
| Purchase.CardPurchase | src/utils/canPurchase.ts:15-17 | with card and stock > 0 the result is true, independent of balance and change |
| Purchase.NoPaymentCannotPurchase | src/utils/canPurchase.ts:19 | no payment method gives false |
| Purchase.CanPurchaseMonotoneInBalance | src/utils/canPurchase.ts:12 | a purchase possible at balance b stays possible at every b' ≥ b |
| ButtonStates.DisabledIffOutOfStock | src/utils/getButtonState.ts:10-12 | the button is disabled exactly when stock ≤ 0 |
| ButtonStates.CashWithoutChangeIsActive | src/utils/getButtonState.ts:15-17 | cash without change available gives 'active' |
| ButtonStates.CashWithBalanceIsPurchasable | src/utils/getButtonState.ts:20-22 | cash, change available and balance ≥ price give 'purchasable' |
| ButtonStates.CardIsPurchasable | src/utils/getButtonState.ts:25-27 | card gives 'purchasable' whatever the balance |
| ButtonStates.OtherwiseActive | src/utils/getButtonState.ts:20-30 | no payment method, or cash short of the price, gives 'active' |
| ButtonStates.PurchasableIffCanPurchase | src/utils/getButtonState.ts:10-30 | 'purchasable' exactly when canPurchase is true for the same arguments |
| VendingMachine.Find | src/machines/vendingMachine.ts:14 | `find` returns a product with the id, which is the first such, or nothing exactly when no product has that id |
| MachineInvariants.DuplicateIdsBreakStock | src/machines/vendingMachine.ts:14-15 | with two products sharing an id, the second out of stock, a cash sale of the first is accepted and leaves the second at stock -1, so the invariant needs unique ids |
| MachineInvariants.DecrementedKeepsInvariant | src/machines/vendingMachine.ts:50-59 | decrementing a product in stock keeps every stock non-negative and every id unique |
| MachineInvariants.InitialInv | src/machines/vendingMachine.ts:104-126 | the started machine satisfies the invariant when the catalog has non-negative stocks and unique ids |
| MachineInvariants.EnterIdle | src/machines/vendingMachine.ts:96-101 | entering idle establishes the idle facts |
| MachineInvariants.EnterError | src/machines/vendingMachine.ts:215-216 | entering error establishes the error facts |
| MachineInvariants.EnterDispensing | src/machines/vendingMachine.ts:184-185 | entering dispensing with a drink in stock (and paid for, with cash) keeps balance and stocks non-negative |
| MachineInvariants.IdlePreservesInv | src/machines/vendingMachine.ts:125-141 | every well-formed event in idle keeps the invariant |
| MachineInvariants.CashInsertedPreservesInv | src/machines/vendingMachine.ts:142-162 | every well-formed event in cashInserted keeps the invariant; a cash sale never makes the balance negative |
| MachineInvariants.CardInsertedPreservesInv | src/machines/vendingMachine.ts:163-172 | every event in cardInserted keeps the invariant |
| MachineInvariants.ProcessingPaymentPreservesInv | src/machines/vendingMachine.ts:173-183 | every event in processingPayment keeps the invariant |
| MachineInvariants.DispensingPreservesInv | src/machines/vendingMachine.ts:184-195 | every event in dispensing keeps the invariant |
| MachineInvariants.OtherStatesPreserveInv | src/machines/vendingMachine.ts:196-223 | every event in refunding, changeShortage or error keeps the invariant |
| MachineInvariants.StepPreservesInv | src/machines/vendingMachine.ts:124-223 | every well-formed event keeps balance ≥ 0, stocks ≥ 0, unique ids, the error message exactly in error, and the per-state facts |
| MachineInvariants.RunPreservesInv | src/machines/vendingMachine.ts:124-223 | any sequence of well-formed events keeps the invariant |
| MachineInvariants.ReachableInv | src/machines/vendingMachine.ts:104-223 | from a sound catalog, after any well-formed event sequence, balance ≥ 0, every stock ≥ 0 and errorMessage is set iff the state is error |
| MachineProperties.TransitionFiresIff | src/machines/vendingMachine.ts:124-223 | a transition fires exactly when the state has a handler for the event and no guard rejects it |
| MachineProperties.IgnoredEventChangesNothing | src/machines/vendingMachine.ts:124-223 | an unhandled or guard-rejected event leaves state and context unchanged |
| MachineProperties.IdleInsertCash | src/machines/vendingMachine.ts:128-132 | in idle, cash is taken only when change is available: balance += amount, method cash; otherwise nothing changes |
| MachineProperties.CashInsertedInsertCash | src/machines/vendingMachine.ts:144-148 | more cash re-enters cashInserted and adds exactly the amount |
| MachineProperties.CashSelectDrink | src/machines/vendingMachine.ts:10-16 | SELECT_DRINK from cashInserted fires iff balance ≥ the event's price and the catalog product with that id has stock > 0; otherwise nothing changes |
| MachineProperties.MissingProductNotSold | src/machines/vendingMachine.ts:14-22 | an id missing from the catalog counts as stock 0 and is never sold, by cash or card |
| MachineProperties.FindDecremented | src/machines/vendingMachine.ts:50-59 | after a decrement, the lookup finds the same product, decremented if it was the target |
| MachineProperties.StockOfDecremented | src/machines/vendingMachine.ts:50-59 | a decrement lowers the looked-up stock of its target by one (if listed) and no other id's |
| MachineProperties.EnterDispensingEffect | src/machines/vendingMachine.ts:50-67 | entering dispensing decrements by one exactly the products with the selected id, keeps the rest, and subtracts the price only for cash |
| MachineProperties.EnterDispensingStock | src/machines/vendingMachine.ts:185 | entering dispensing lowers the sold drink's stock by one and no other |
| MachineProperties.CashSale | src/machines/vendingMachine.ts:153-157 | a cash sale selects the drink, decrements its stock and charges its price |
| MachineProperties.OnlyDispensingChangesProducts | src/machines/vendingMachine.ts:50-59 | the catalog changes only on entering dispensing |
| MachineProperties.EnterCardInserted | src/machines/vendingMachine.ts:163-164 | entering cardInserted sets the method to card |
| MachineProperties.CardSelectDrink | src/machines/vendingMachine.ts:17-23 | with a card, SELECT_DRINK starts the payment iff the product is in stock, regardless of balance |
| MachineProperties.CardPaymentSucceeds | src/machines/vendingMachine.ts:175-177 | PAYMENT_SUCCESS dispenses without touching a card balance |
| MachineProperties.FailureGoesToError | src/machines/vendingMachine.ts:178-194 | PAYMENT_FAILURE and DISPENSE_FAILURE go to error with the event's message and balance 0 |
| MachineProperties.ErrorMessageFromFailure | src/machines/vendingMachine.ts:85-92 | error is entered only by PAYMENT_FAILURE or DISPENSE_FAILURE, so its message is always the event's and the "Unknown error" fallback is never reached |
| MachineProperties.EnteringResets | src/machines/vendingMachine.ts:96-101 | every transition into idle clears balance, method, drink and message; into refunding or error empties the balance |
| MachineProperties.CashToCard | src/machines/vendingMachine.ts:149-152 | cash to card sets balance 0 and method card |
| MachineProperties.RefundOnlyFromCash | src/machines/vendingMachine.ts:158-160 | REFUND is handled only in cashInserted and empties the balance |
| MachineProperties.RefundCompleteReturnsToIdle | src/machines/vendingMachine.ts:199-221 | REFUND_COMPLETE from refunding or error returns to a reset idle |
| MachineProperties.CheckChangeInIdle | src/machines/vendingMachine.ts:136-139 | CHECK_CHANGE goes to changeShortage only when change is not available |
| MachineProperties.ShortageAcceptsCard | src/machines/vendingMachine.ts:206-208 | in changeShortage a card is accepted |
| MachineProperties.ReplenishReturnsToIdle | src/machines/vendingMachine.ts:71-84 | CHANGE_REPLENISHED returns to idle with change available and the reserve as it was |
| MachineProperties.ChangeAvailabilityOnlyByReplenishing | src/machines/vendingMachine.ts:71-84 | the change flag only changes by replenishing in changeShortage, and then to true |
| MachineProperties.StepKeepsReserve | src/machines/vendingMachine.ts:27-102 | no event changes the change reserve |
| MachineProperties.RunKeepsReserve | src/machines/vendingMachine.ts:27-102 | no event sequence changes the change reserve |
| MachineProperties.StartsIdle | src/machines/__tests__/vendingMachine.test.ts:47-63 | the machine starts in idle with balance 0, no method, drink or message, the given catalog and change flag |
| MachineProperties.CashAccumulates | src/machines/__tests__/vendingMachine.test.ts:110-123 | 1000 + 500 + 100 gives balance 1600 in cashInserted |
| MachineProperties.CashRefusedWithoutChange | src/machines/__tests__/vendingMachine.test.ts:125-141 | without change, cash is refused |
| MachineProperties.BuyWaterWithCash | src/machines/__tests__/vendingMachine.test.ts:215-266 | 1000 then water gives dispensing, balance 400, stock 9; DISPENSE_SUCCESS then gives idle with balance 0 |
| MachineProperties.CoffeeOutOfStock | src/machines/__tests__/vendingMachine.test.ts:200-213 | an out-of-stock drink is not sold |
| MachineProperties.BuyWaterByCard | src/machines/__tests__/vendingMachine.test.ts:303-351 | card, water, PAYMENT_SUCCESS gives dispensing with method card, balance 0 and stock 9 |
| MachineProperties.CardPaymentRefused | src/machines/__tests__/vendingMachine.test.ts:318-335 | card, water, PAYMENT_FAILURE gives error with the refusal's message and balance 0 |
| MachineActor.Machine.constructor | src/machines/vendingMachine.ts:104-126 | the machine starts in idle with the reset initial context; with a sound catalog it satisfies the invariant |
| MachineActor.Machine.Send | src/machines/vendingMachine.ts:124-223 | the new state value and context are `Step` of the old ones, and a well-formed event keeps the invariant |

## Left out

- The React components (`src/components/*.tsx`, `app/page.tsx`) and the `useVendingMachine` hook: rendering and event forwarding only.
- `listProducts`: it returns hard-coded data. Only its reserve is modelled, in `ListedReserveCanMakeChange`.
- `processCardPayment`: it waits on a timer and decides with a random number. Its outcome enters the model only as the PAYMENT_SUCCESS and PAYMENT_FAILURE events.
- The xstate library itself: actor creation and subscription, `can()`, snapshot status, and the start-up event. The initial entry action is applied directly in `InitialSnapshot`.
- The `reenter: true` flag on cashInserted's INSERT_CASH has no effect, because cashInserted has no entry or exit actions. No state has exit actions.
- `calculateChange` and `canMakeChange` are not wired into the machine, because the source never calls them from it.
- JavaScript numbers are doubles. The model uses unbounded integers, so fractional amounts or prices, NaN, infinities and rounding at 2^53 are not modelled.
- MachineInvariants.StepPreservesInv: the invariant needs unique product ids and non-negative INSERT_CASH amounts; `DuplicateIdsBreakStock` shows a catalog with a repeated id whose stock goes below zero. The guard checks the first product with the id, while the decrement lowers every product with that id, and the source never checks either condition.
