/** Greedy change making from a finite reserve (src/utils/calculateChange.ts). */
module ChangeCalculator {
  import opened Types
  import opened TotalChange

  /** `{ success, change, remaining }`; `change` is null on failure. */
  datatype ChangeResult = ChangeResult(success: bool, change: Option<ChangeReserve>, remaining: int)

  /** How many units of `d` one greedy step records: `min(floor(remaining / d), available)`,
      or none when that is not positive. Dafny's `/` is floor division for a positive divisor. */
  function Take(remaining: int, available: int, d: Denomination): (n: int)
    ensures n >= 0 && d * n >= 0
    ensures n == 0 || n <= available
    ensures remaining >= 0 ==> d * n <= remaining
    ensures remaining <= 0 ==> n == 0
    ensures remaining >= d && available > 0 ==> n > 0
  {
    var needed := remaining / d;
    var use := if needed < available then needed else available;
    if use > 0 then use else 0
  }

  /** The counts the greedy pass records when it visits the denominations `ds`
      in order with `remaining` still to be paid. */
  function GreedyOver(remaining: int, reserve: ChangeReserve, ds: seq<Denomination>): ChangeReserve {
    if ds == [] then EmptyReserve
    else
      var d := ds[0];
      var n := Take(remaining, reserve.Count(d), d);
      GreedyOver(remaining - d * n, reserve, ds[1..]).With(d, n)
  }

  /** What is still unpaid after that pass. */
  function LeftOver(remaining: int, reserve: ChangeReserve, ds: seq<Denomination>): int {
    if ds == [] then remaining
    else
      var d := ds[0];
      LeftOver(remaining - d * Take(remaining, reserve.Count(d), d), reserve, ds[1..])
  }

  /** The whole greedy pass for `amount`, largest denomination first. */
  function GreedyPlan(amount: int, reserve: ChangeReserve): ChangeReserve {
    GreedyOver(amount, reserve, Denominations)
  }

  /** The loop's working state: the breakdown so far, the copy of the reserve it draws
      from, and the amount still unpaid. */
  datatype Pass = Pass(result: ChangeReserve, available: ChangeReserve, remaining: int)

  function Start(amount: int, reserve: ChangeReserve): Pass {
    Pass(EmptyReserve, reserve, amount)
  }

  /** One iteration of the loop, for denomination `d`. */
  function PassStep(p: Pass, d: Denomination): Pass {
    var needed := p.remaining / d;
    var available := p.available.Count(d);
    var use := if needed < available then needed else available;
    if use > 0 then Pass(p.result.With(d, use), p.available.With(d, available - use), p.remaining - d * use)
    else p
  }

  /** The state after the loop has visited the denominations `ds`, in order. */
  function PassOver(p: Pass, ds: seq<Denomination>): Pass {
    if ds == [] then p else PassStep(PassOver(p, ds[..|ds| - 1]), ds[|ds| - 1])
  }

  ghost predicate Distinct(ds: seq<Denomination>) {
    forall j, k :: 0 <= j < k < |ds| ==> ds[j] != ds[k]
  }

  lemma DenominationsDistinct()
    ensures Distinct(Denominations)
  {
  }

  lemma DistinctTail(ds: seq<Denomination>)
    requires ds != [] && Distinct(ds)
    ensures Distinct(ds[1..]) && ds[0] !in ds[1..]
  {
    forall j, k | 0 <= j < k < |ds[1..]| ensures ds[1..][j] != ds[1..][k] {
      assert ds[1..][j] == ds[j + 1] && ds[1..][k] == ds[k + 1];
    }
    forall k | 0 <= k < |ds[1..]| ensures ds[1..][k] != ds[0] {
      assert ds[1..][k] == ds[k + 1];
    }
  }

  lemma DistinctSuffix(ds: seq<Denomination>, i: int)
    requires Distinct(ds) && 0 <= i <= |ds|
    ensures Distinct(ds[i..])
  {
    forall j, k | 0 <= j < k < |ds[i..]| ensures ds[i..][j] != ds[i..][k] {
      assert ds[i..][j] == ds[i + j] && ds[i..][k] == ds[i + k];
    }
  }

  /** A breakdown that takes from each bucket no more than the bucket holds. */
  ghost predicate WithinReserve(change: ChangeReserve, reserve: ChangeReserve) {
    forall d: Denomination :: change.Count(d) == 0 || 0 < change.Count(d) <= reserve.Count(d)
  }

  /** The pass records nothing for a denomination it does not visit. */
  lemma {:induction false} GreedyOverSkipsUnvisited(remaining: int, reserve: ChangeReserve, ds: seq<Denomination>)
    ensures forall e: Denomination :: e !in ds ==> GreedyOver(remaining, reserve, ds).Count(e) == 0
  {
    if ds != [] {
      var d := ds[0];
      var n := Take(remaining, reserve.Count(d), d);
      GreedyOverSkipsUnvisited(remaining - d * n, reserve, ds[1..]);
      forall e: Denomination | e !in ds
        ensures GreedyOver(remaining, reserve, ds).Count(e) == 0
      {
        assert e != d && e !in ds[1..];
      }
    }
  }

  /** Every recorded count is zero or a positive number the reserve can supply. */
  lemma {:induction false} GreedyOverWithinReserve(remaining: int, reserve: ChangeReserve, ds: seq<Denomination>)
    ensures WithinReserve(GreedyOver(remaining, reserve, ds), reserve)
  {
    if ds != [] {
      var d := ds[0];
      var n := Take(remaining, reserve.Count(d), d);
      GreedyOverWithinReserve(remaining - d * n, reserve, ds[1..]);
    }
  }

  /** The first denomination's units are recorded on top of an untouched bucket. */
  lemma GreedyOverFirst(remaining: int, reserve: ChangeReserve, ds: seq<Denomination>)
    requires ds != [] && Distinct(ds)
    ensures var d := ds[0];
            var n := Take(remaining, reserve.Count(d), d);
            var rest := GreedyOver(remaining - d * n, reserve, ds[1..]);
            rest.Count(d) == 0 && GreedyOver(remaining, reserve, ds) == rest.With(d, n)
  {
    var d := ds[0];
    var n := Take(remaining, reserve.Count(d), d);
    GreedyOverSkipsUnvisited(remaining - d * n, reserve, ds[1..]);
    DistinctTail(ds);
  }

  /** The unpaid rest is exactly the amount minus the value of what was recorded. */
  lemma {:induction false} LeftOverIsUnpaid(remaining: int, reserve: ChangeReserve, ds: seq<Denomination>)
    requires Distinct(ds)
    ensures LeftOver(remaining, reserve, ds) == remaining - GetTotalChangeAmount(GreedyOver(remaining, reserve, ds))
  {
    if ds != [] {
      var d := ds[0];
      var n := Take(remaining, reserve.Count(d), d);
      var paid := d * n;
      var rest := GreedyOver(remaining - paid, reserve, ds[1..]);
      DistinctTail(ds);
      LeftOverIsUnpaid(remaining - paid, reserve, ds[1..]);
      GreedyOverFirst(remaining, reserve, ds);
      TotalWithFromZero(rest, d, n);
    }
  }

  /** For a non-negative amount the pass never pays more than is asked. */
  lemma {:induction false} GreedyOverBounded(remaining: int, reserve: ChangeReserve, ds: seq<Denomination>)
    requires Distinct(ds)
    requires remaining >= 0
    ensures 0 <= GetTotalChangeAmount(GreedyOver(remaining, reserve, ds)) <= remaining
  {
    if ds != [] {
      var d := ds[0];
      var n := Take(remaining, reserve.Count(d), d);
      var paid := d * n;
      assert 0 <= paid <= remaining;
      var rest := GreedyOver(remaining - paid, reserve, ds[1..]);
      DistinctTail(ds);
      GreedyOverBounded(remaining - paid, reserve, ds[1..]);
      GreedyOverFirst(remaining, reserve, ds);
      TotalWithFromZero(rest, d, n);
    }
  }

  /** Nothing to pay (or a negative amount) records nothing. */
  lemma {:induction false} GreedyOverNonPositive(remaining: int, reserve: ChangeReserve, ds: seq<Denomination>)
    requires remaining <= 0
    ensures GreedyOver(remaining, reserve, ds) == EmptyReserve
  {
    if ds != [] {
      var d := ds[0];
      assert Take(remaining, reserve.Count(d), d) == 0;
      GreedyOverNonPositive(remaining, reserve, ds[1..]);
      ReserveExtensionality(EmptyReserve.With(d, 0), EmptyReserve);
    }
  }

  /** Recording the `i`-th denomination's units moves them out of the rest of the pass:
      the combination and the unpaid rest stay the same. */
  lemma GreedyStep(result: ChangeReserve, remaining: int, reserve: ChangeReserve, ds: seq<Denomination>, i: int,
                   taken: int, result': ChangeReserve, remaining': int)
    requires Distinct(ds) && 0 <= i < |ds|
    requires forall e: Denomination :: e in ds[i..] ==> result.Count(e) == 0
    requires taken == Take(remaining, reserve.Count(ds[i]), ds[i])
    requires result' == result.With(ds[i], taken) && remaining' == remaining - ds[i] * taken
    ensures Add(result', GreedyOver(remaining', reserve, ds[i + 1..])) ==
            Add(result, GreedyOver(remaining, reserve, ds[i..]))
    ensures LeftOver(remaining', reserve, ds[i + 1..]) == LeftOver(remaining, reserve, ds[i..])
    ensures forall e: Denomination :: e in ds[i + 1..] ==> result'.Count(e) == 0
  {
    var tail := ds[i..];
    assert tail[0] == ds[i] && tail[1..] == ds[i + 1..];
    DistinctSuffix(ds, i);
    var d := ds[i];
    var rest := GreedyOver(remaining', reserve, ds[i + 1..]);
    GreedyOverFirst(remaining, reserve, tail);
    DistinctTail(tail);
    assert result.Count(d) == 0;
    ReserveExtensionality(Add(result', rest), Add(result, rest.With(d, taken)));
    forall e: Denomination | e in ds[i + 1..] ensures result'.Count(e) == 0 {
      assert e in tail && e != d;
    }
  }

  /** A loop state `p`, reached after visiting the first `i` of `ds`, agrees with the greedy
      pass: the reserve copy is the reserve minus the breakdown, the unvisited buckets are
      empty, and the breakdown so far plus what the rest of the pass would record is the
      whole plan, with the same unpaid rest. */
  ghost predicate Agrees(amount: int, reserve: ChangeReserve, ds: seq<Denomination>, i: int, p: Pass)
    requires 0 <= i <= |ds|
  {
    p.available == Subtract(reserve, p.result) &&
    (forall e: Denomination :: e in ds[i..] ==> p.result.Count(e) == 0) &&
    Add(p.result, GreedyOver(p.remaining, reserve, ds[i..])) == GreedyOver(amount, reserve, ds) &&
    LeftOver(p.remaining, reserve, ds[i..]) == LeftOver(amount, reserve, ds)
  }

  /** One iteration keeps the loop state in agreement with the greedy pass. */
  lemma PassStepAgrees(amount: int, reserve: ChangeReserve, ds: seq<Denomination>, i: int, q: Pass)
    requires Distinct(ds) && 0 <= i < |ds|
    requires Agrees(amount, reserve, ds, i, q)
    ensures Agrees(amount, reserve, ds, i + 1, PassStep(q, ds[i]))
  {
    var p := PassStep(q, ds[i]);
    var d := ds[i];
    var needed := q.remaining / d;
    var use := if needed < q.available.Count(d) then needed else q.available.Count(d);
    var taken := if use > 0 then use else 0;
    assert d in ds[i..];
    AvailableStep(q.available, reserve, q.result, d, taken);
    TakeIs(q.remaining, q.available.Count(d), d, use);
    if use <= 0 {
      ReserveExtensionality(q.result.With(d, 0), q.result);
    }
    GreedyStep(q.result, q.remaining, reserve, ds, i, taken, p.result, p.remaining);
  }

  /** Before the loop, its state agrees with the greedy pass. */
  lemma StartAgrees(amount: int, reserve: ChangeReserve, ds: seq<Denomination>)
    ensures Agrees(amount, reserve, ds, 0, Start(amount, reserve))
  {
    assert ds[0..] == ds;
    ReserveExtensionality(Subtract(reserve, EmptyReserve), reserve);
    ReserveExtensionality(Add(EmptyReserve, GreedyOver(amount, reserve, ds)), GreedyOver(amount, reserve, ds));
  }

  /** Every prefix of the loop agrees with the greedy pass. */
  lemma {:induction false} PassOverAgrees(amount: int, reserve: ChangeReserve, ds: seq<Denomination>, i: int)
    requires Distinct(ds) && 0 <= i <= |ds|
    ensures Agrees(amount, reserve, ds, i, PassOver(Start(amount, reserve), ds[..i]))
  {
    if i == 0 {
      assert ds[..0] == [];
      StartAgrees(amount, reserve, ds);
    } else {
      PassOverAgrees(amount, reserve, ds, i - 1);
      assert ds[..i][..i - 1] == ds[..i - 1];
      PassStepAgrees(amount, reserve, ds, i - 1, PassOver(Start(amount, reserve), ds[..i - 1]));
    }
  }

  /** The whole loop computes the greedy plan, and leaves unpaid what the plan does not pay. */
  lemma PassOverIsGreedyPlan(amount: int, reserve: ChangeReserve)
    ensures var p := PassOver(Start(amount, reserve), Denominations);
            p.result == GreedyPlan(amount, reserve) &&
            p.remaining == amount - GetTotalChangeAmount(GreedyPlan(amount, reserve))
  {
    var ds := Denominations;
    DenominationsDistinct();
    PassOverAgrees(amount, reserve, ds, |ds|);
    assert ds[..|ds|] == ds && ds[|ds|..] == [];
    var p := PassOver(Start(amount, reserve), ds);
    ReserveExtensionality(Add(p.result, EmptyReserve), p.result);
    LeftOverIsUnpaid(amount, reserve, ds);
  }

  /** What the whole pass promises: it stays within the reserve, pays a multiple of 10,
      leaves unpaid exactly what it did not pay, never overpays a non-negative amount,
      and records nothing for a non-positive one. */
  lemma GreedyPlanFacts(amount: int, reserve: ChangeReserve)
    ensures WithinReserve(GreedyPlan(amount, reserve), reserve)
    ensures GetTotalChangeAmount(GreedyPlan(amount, reserve)) % 10 == 0
    ensures LeftOver(amount, reserve, Denominations) == amount - GetTotalChangeAmount(GreedyPlan(amount, reserve))
    ensures amount >= 0 ==> 0 <= GetTotalChangeAmount(GreedyPlan(amount, reserve)) <= amount
    ensures amount <= 0 ==> GreedyPlan(amount, reserve) == EmptyReserve
  {
    GreedyOverWithinReserve(amount, reserve, Denominations);
    TotalMultipleOfTen(GreedyPlan(amount, reserve));
    DenominationsDistinct();
    LeftOverIsUnpaid(amount, reserve, Denominations);
    if amount >= 0 {
      GreedyOverBounded(amount, reserve, Denominations);
    }
    if amount <= 0 {
      GreedyOverNonPositive(amount, reserve, Denominations);
    }
  }

  /** The result the change maker reports: the greedy plan if it pays the whole amount,
      otherwise failure together with what is left unpaid. */
  function ChangeOutcome(amount: int, reserve: ChangeReserve): ChangeResult {
    var plan := GreedyPlan(amount, reserve);
    var left := amount - GetTotalChangeAmount(plan);
    if left > 0 then ChangeResult(false, None, left) else ChangeResult(true, Some(plan), 0)
  }

  /** The count-wise difference of two reserves: what is left of `reserve` once `taken` is out. */
  function Subtract(reserve: ChangeReserve, taken: ChangeReserve): (r: ChangeReserve)
    ensures forall d: Denomination :: r.Count(d) == reserve.Count(d) - taken.Count(d)
  {
    ChangeReserve(reserve.n10 - taken.n10, reserve.n50 - taken.n50, reserve.n100 - taken.n100,
                  reserve.n500 - taken.n500, reserve.n1000 - taken.n1000, reserve.n5000 - taken.n5000,
                  reserve.n10000 - taken.n10000, reserve.n50000 - taken.n50000)
  }

  /** Taking `n` units of a denomination not yet taken lowers the available count by `n`. */
  lemma AvailableStep(available: ChangeReserve, reserve: ChangeReserve, taken: ChangeReserve,
                      d: Denomination, n: int)
    requires available == Subtract(reserve, taken) && taken.Count(d) == 0
    ensures available.With(d, available.Count(d) - n) == Subtract(reserve, taken.With(d, n))
    ensures available.Count(d) == reserve.Count(d)
  {
    ReserveExtensionality(available.With(d, available.Count(d) - n), Subtract(reserve, taken.With(d, n)));
  }

  lemma TakeIs(remaining: int, available: int, d: Denomination, use: int)
    requires use == if remaining / d < available then remaining / d else available
    ensures Take(remaining, available, d) == if use > 0 then use else 0
  {
  }

  /** The outcome in terms of the loop's final breakdown and unpaid rest. */
  lemma ChangeOutcomeOf(amount: int, reserve: ChangeReserve, plan: ChangeReserve, left: int)
    requires plan == GreedyPlan(amount, reserve)
    requires left == amount - GetTotalChangeAmount(plan)
    ensures ChangeOutcome(amount, reserve) ==
            if left > 0 then ChangeResult(false, None, left) else ChangeResult(true, Some(plan), 0)
  {
  }

  /** Success and a breakdown go together; success leaves nothing unpaid and pays exactly
      the amount, failure leaves a positive part of it unpaid. */
  lemma ChangeOutcomeShape(amount: int, reserve: ChangeReserve)
    ensures var res := ChangeOutcome(amount, reserve);
            (res.success <==> res.change.Some?) &&
            (res.success ==> res.remaining == 0) &&
            (!res.success ==> 0 < res.remaining <= amount) &&
            (amount >= 0 && res.success ==> GetTotalChangeAmount(res.change.value) == amount)
  {
    GreedyPlanFacts(amount, reserve);
  }

  /** A breakdown never takes more of a denomination than the reserve holds. */
  lemma ChangeOutcomeWithinReserve(amount: int, reserve: ChangeReserve)
    ensures var res := ChangeOutcome(amount, reserve);
            res.change.Some? ==> WithinReserve(res.change.value, reserve)
  {
    GreedyPlanFacts(amount, reserve);
  }

  /** Paying a successful breakdown out of a reserve without negative counts leaves none negative. */
  lemma ApplyingChangeKeepsReserveNonNegative(amount: int, reserve: ChangeReserve)
    requires AllNonNegative(reserve)
    ensures var res := ChangeOutcome(amount, reserve);
            res.success ==> AllNonNegative(Subtract(reserve, res.change.value))
  {
    ChangeOutcomeShape(amount, reserve);
    ChangeOutcomeWithinReserve(amount, reserve);
  }

  /** Zero (or a negative amount) succeeds with an empty breakdown. */
  lemma ChangeOutcomeNonPositive(amount: int, reserve: ChangeReserve)
    requires amount <= 0
    ensures ChangeOutcome(amount, reserve) == ChangeResult(true, Some(EmptyReserve), 0)
  {
    GreedyPlanFacts(amount, reserve);
  }

  /** An amount that is not a multiple of 10 can never be paid. */
  lemma ChangeOutcomeNeedsMultipleOfTen(amount: int, reserve: ChangeReserve)
    requires amount > 0 && amount % 10 != 0
    ensures !ChangeOutcome(amount, reserve).success
  {
    GreedyPlanFacts(amount, reserve);
  }

  /**
   * Pays `amount` out of `reserve`, largest denomination first, taking of each
   * as many units as fit and as the reserve holds. Works on a copy of the reserve;
   * the caller's reserve is a value and is never changed.
   */
  method CalculateChange(amount: int, reserve: ChangeReserve) returns (res: ChangeResult)
    ensures res == ChangeOutcome(amount, reserve)
    ensures res.success <==> res.change.Some?
    ensures res.success ==> res.remaining == 0
    ensures !res.success ==> 0 < res.remaining <= amount
    ensures amount >= 0 && res.success ==> GetTotalChangeAmount(res.change.value) == amount
    ensures res.change.Some? ==> WithinReserve(res.change.value, reserve)
  {
    var result := EmptyReserve;
    var remaining := amount;
    var denominations := Denominations;
    var availableReserve := reserve;
    for i := 0 to |denominations|
      invariant Pass(result, availableReserve, remaining) == PassOver(Start(amount, reserve), denominations[..i])
    {
      assert denominations[..i + 1][..i] == denominations[..i];
      var denom := denominations[i];
      var needed := remaining / denom;
      var available := availableReserve.Count(denom);
      var use := if needed < available then needed else available;
      if use > 0 {
        result := result.With(denom, use);
        availableReserve := availableReserve.With(denom, available - use);
        remaining := remaining - denom * use;
      }
    }
    assert denominations[..|denominations|] == denominations;
    PassOverIsGreedyPlan(amount, reserve);
    ChangeOutcomeOf(amount, reserve, result, remaining);
    ChangeOutcomeShape(amount, reserve);
    ChangeOutcomeWithinReserve(amount, reserve);
    if remaining > 0 {
      return ChangeResult(false, None, remaining);
    }
    return ChangeResult(true, Some(result), 0);
  }
}
