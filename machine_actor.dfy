/** A running machine: it holds the current state value and context and replaces
    both on every event it is sent (src/machines/vendingMachine.ts:103-225). */
module MachineActor {
  import opened Types
  import opened VendingMachine
  import opened MachineInvariants

  class Machine {
    var value: StateValue
    var context: Context

    /** Builds and starts the machine from a catalog, a reserve and the change flag:
        it begins in idle, whose entry action resets the transaction fields. */
    constructor (init: InitialMachineState)
      ensures Current() == InitialSnapshot(init)
      ensures StocksNonNegative(init.products) && UniqueIds(init.products) ==> Inv(Current())
    {
      value := Idle;
      context := ResetState(InitialContext(init));
      if StocksNonNegative(init.products) && UniqueIds(init.products) {
        InitialInv(init);
      }
    }

    /** The snapshot: state value and context. */
    function Current(): Snapshot
      reads this
    {
      Snapshot(value, context)
    }

    /** Handles one event: a matching transition replaces the state value and the context
        (its actions first, then the target's entry actions); any other event is ignored. */
    method Send(e: Event)
      modifies this
      ensures Current() == Step(old(Current()), e)
      ensures old(Inv(Current())) && WellFormed(e) ==> Inv(Current())
    {
      ghost var before := Current();
      if Inv(before) && WellFormed(e) {
        StepPreservesInv(before, e);
      }
      var t := Transition(value, context, e);
      if t.Some? {
        value := t.value.value;
        context := Entry(t.value.value, t.value.context, e);
      }
    }
  }
}
