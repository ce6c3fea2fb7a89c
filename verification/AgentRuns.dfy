/** The lifecycle of an agent run (agents/service.py) and the output budgets of its calls (agents/output_budget.py). */
module AgentRuns {
  import opened Options

  datatype RunStatus = Created | Running | WaitingForApproval | Succeeded | Failed | Cancelled

  datatype RunState = RunState(status: RunStatus, started: Option<nat>, completed: Option<nat>, failure: Option<string>)

  const TERMINAL := {Succeeded, Failed, Cancelled}

  /** The shapes the database accepts. */
  predicate Shaped(r: RunState) {
    && (match r.status
        case Created => r.started == None && r.completed == None && r.failure == None
        case Running => r.started.Some? && r.completed == None && r.failure == None
        case WaitingForApproval => r.started.Some? && r.completed == None && r.failure == None
        case Succeeded => r.started.Some? && r.completed.Some? && r.failure == None
        case Failed => r.started.Some? && r.completed.Some? && r.failure.Some?
        case Cancelled => r.completed.Some? && r.failure == None)
    && (r.completed.Some? && r.started.Some? ==> r.completed.value >= r.started.value)
  }

  /** The transitions the wrappers of `_transition` ask for, with a failure code exactly when the target is FAILED. */
  predicate Legal(expected: RunStatus, target: RunStatus, failure: Option<string>) {
    && (failure.Some? <==> target == Failed)
    && (match expected
        case Created => target in {Running, Cancelled}
        case Running => target in {Succeeded, WaitingForApproval, Failed, Cancelled}
        case WaitingForApproval => target in {Running, Failed}
        case _ => false)
  }

  class AgentRun {
    var state: RunState
    var clock: nat

    constructor (now: nat)
      ensures state == RunState(Created, None, None, None) && clock == now
    {
      state, clock := RunState(Created, None, None, None), now;
    }

    /** `_transition`: a conditional update, refused unless the row has the expected status. */
    method Transition(expected: RunStatus, target: RunStatus, failure: Option<string>) returns (ok: bool)
      requires Legal(expected, target, failure)
      requires Shaped(state) && (state.started.Some? ==> state.started.value <= clock)
      modifies this
      ensures ok <==> old(state.status) == expected
      ensures !ok ==> state == old(state)
      ensures ok ==> state.status == target && state.failure == failure
      ensures ok ==>
        state.started == if expected == Created && target == Running then Some(clock) else old(state.started)
      ensures ok ==> state.completed == if target in TERMINAL then Some(clock) else None
      ensures old(clock) <= clock
      ensures Shaped(state) && (state.started.Some? ==> state.started.value <= clock)
      ensures old(state.status) in TERMINAL ==> !ok
    {
      var now: nat := *;
      clock := if now < clock then clock else now;
      if state.status != expected {
        return false;
      }
      if target == Running && expected == Created {
        state := state.(status := target, started := Some(clock));
      } else if target in TERMINAL {
        state := state.(status := target, completed := Some(clock), failure := failure);
      } else {
        state := state.(status := target);
      }
      return true;
    }

    /** `cancel_run`: from CREATED or RUNNING. */
    method Cancel() returns (ok: bool)
      requires Shaped(state) && (state.started.Some? ==> state.started.value <= clock)
      modifies this
      ensures ok <==> old(state.status) in {Created, Running}
      ensures ok ==> state.status == Cancelled
      ensures !ok ==> state == old(state)
      ensures Shaped(state) && (state.started.Some? ==> state.started.value <= clock)
    {
      ok := Transition(if state.status == Created then Created else Running, Cancelled, None);
    }
  }

  // ---------------------------------------------------------------- budgets

  /** `ceil(n * 1.5)`. */
  function OneAndAHalf(n: nat): nat {
    (3 * n + 1) / 2
  }

  function Max(a: int, b: int): int {
    if a > b then a else b
  }

  function Min(a: int, b: int): int {
    if a < b then a else b
  }

  /** `select_output_budget`; a known maximum of 0 counts as unknown. */
  function Budget(expected: nat, known: Option<nat>, ceiling: int, recovery: bool): int {
    var target := Max(expected, OneAndAHalf(expected));
    var bound := if known.Some? && known.value != 0 then Min(known.value, ceiling) else ceiling;
    var wanted := if recovery then Max(target, OneAndAHalf(target)) else target;
    Max(1, Min(wanted, bound))
  }

  /** A retry never gets less than the first attempt, and gets more whenever the bounds leave room. */
  lemma RecoveryIsLarger(expected: nat, known: Option<nat>, ceiling: int)
    ensures Budget(expected, known, ceiling, true) >= Budget(expected, known, ceiling, false) >= 1
    ensures expected > 0 && ceiling > Budget(expected, known, ceiling, false)
              && (known.Some? && known.value != 0 ==> known.value > Budget(expected, known, ceiling, false)) ==>
      Budget(expected, known, ceiling, true) > Budget(expected, known, ceiling, false)
  {
  }

  /** A budget is the expectation plus half, cut to the bounds that are known. */
  lemma BudgetIsBounded(expected: nat, known: Option<nat>, ceiling: int, recovery: bool)
    requires ceiling >= 1
    ensures var b := Budget(expected, known, ceiling, recovery);
      && 1 <= b <= ceiling && (known.Some? && known.value != 0 ==> b <= known.value)
      && (b < expected ==> b == ceiling || known == Some(b))
  {
  }

  /** `t` is `n` and a half of it, rounded up. */
  predicate WithHalf(n: nat, t: nat) {
    3 * n <= 2 * t < 3 * n + 2
  }

  /** Main result: the first budget is the expectation and half of it, the retry's is half as much again, each cut to
      the known maximum and the ceiling, and at least 1. */
  lemma BudgetIsExact(expected: nat, known: Option<nat>, ceiling: nat, t: nat, u: nat)
    requires ceiling >= 1 && WithHalf(expected, t) && WithHalf(t, u)
    ensures var bound := if known in {None, Some(0)} || known.value > ceiling then ceiling else known.value;
      var first, retry := Budget(expected, known, ceiling, false), Budget(expected, known, ceiling, true);
      && (t <= bound ==> first == if t == 0 then 1 else t) && (t > bound ==> first == bound)
      && (u <= bound ==> retry == if u == 0 then 1 else u) && (u > bound ==> retry == bound)
  {
  }
}
