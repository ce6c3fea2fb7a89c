/** The bounded execution protocol of agents/execution.py as a function of what the provider answers: which calls are
    made, how they are recorded, and how the run ends. */
module ExecutionProtocol {
  import opened Options
  import opened AgentRuns

  datatype ModelRun = Open | Done | Broken | Withdrawn

  datatype Kind = Initial | Truncation | Repair | Continuation

  datatype ResultStatus = COMPLETED | PARTIAL | BLOCKED | NEEDS_INPUT | FAILED | CANCELLED

  datatype ProviderFailure =
    | Authentication | RateLimit | Timeout | Transient | InvalidRequest | MalformedResponse | Refusal | Cancellation
    | Unknown

  /** What the checks on a generation will find: provider, model and upstream as routed; usage figures acceptable;
      a token-limit finish reason; JSON; the contract with its shape constraints; tool proposals; the result status. */
  datatype Generation = Generation(
    identity: bool, upstream: bool, usage: bool, truncated: bool, json: bool, valid: bool, proposals: nat,
    status: ResultStatus)

  /** How a provider call ends. ProviderWithdrew is `ProviderCancellationError`, TaskCancelled a bare
      `asyncio.CancelledError`, Errored a `ProviderError`, Broke anything else. */
  datatype Outcome =
    | Generated(g: Generation)
    | Errored(failure: ProviderFailure)
    | ProviderWithdrew
    | TaskCancelled
    | Broke

  datatype Call = Call(kind: Kind, budget: int, outcome: Outcome)

  datatype Routing = Routed | NoSuitableModel | EnforcementUnsatisfied
  datatype Lookup = Found | NotRegistered | WrongProvider | LookupBroke
  datatype Gateway = NeedsApproval | Evidence | Denied(code: string)

  /** Everything around the calls: tools asked for and granted, memory, routing, linking, provider lookup, strategy,
      the tool gateway, whether the caller passed shape constraints, and the inputs of the budget. */
  datatype Situation = Situation(
    permitted: nat, allowed: bool, registered: bool, rooted: bool, memory: bool, routing: Routing, linked: bool,
    lookup: Lookup, strategy: bool, gateway: Gateway, constrained: bool, lookupAgain: bool,
    expected: nat, known: Option<nat>, ceiling: int)

  /** Where a call or a check leaves the run: going on with a generation, ended, cancelled together with its call, or
      abandoned by an exception that nobody handles. */
  datatype End = Goes(g: Generation) | Ends(status: RunStatus, failure: Option<string>) | Withdrew | Escaped

  datatype Trace = Trace(calls: seq<Call>, end: End)

  function At(answers: seq<Outcome>, i: nat): Outcome {
    if i < |answers| then answers[i] else Broke
  }

  function Fail(code: string): End {
    Ends(Failed, Some(code))
  }

  // ---------------------------------------------------------------- before the first call

  predicate Granted(q: Situation) {
    q.permitted > 0 ==> q.allowed && q.registered && q.rooted
  }

  /** A model run is opened before it is linked and the provider is looked up. */
  predicate OpensRun(q: Situation) {
    Granted(q) && q.memory && q.routing == Routed
  }

  predicate Calls(q: Situation) {
    OpensRun(q) && q.linked && q.lookup == Found && q.strategy
  }

  /** Why there is no call. */
  function FailureBefore(q: Situation): string {
    if q.permitted > 0 && !q.allowed then "tool_permission_denied"
    else if q.permitted > 0 && !q.registered then "unknown_tool_denied"
    else if q.permitted > 0 && !q.rooted then "workspace_root_unavailable"
    else if !q.memory then "memory_context_unavailable"
    else if q.routing == EnforcementUnsatisfied then "contract_enforcement_unsatisfied"
    else if q.routing == NoSuitableModel then "no_suitable_model"
    else if !q.linked then "agent_lifecycle_conflict"
    else if q.lookup == NotRegistered then "provider_" + FailureText(InvalidRequest)
    else if q.lookup == WrongProvider then "provider_identity_mismatch"
    else if q.lookup == LookupBroke then "provider_unknown_provider_error"
    else "native_structured_output_required"
  }

  function FailureText(f: ProviderFailure): string {
    match f
    case Authentication => "authentication_configuration"
    case RateLimit => "rate_limit"
    case Timeout => "timeout"
    case Transient => "transient_service_unavailable"
    case InvalidRequest => "invalid_request"
    case MalformedResponse => "malformed_response"
    case Refusal => "refusal_safety"
    case Cancellation => "cancellation"
    case Unknown => "unknown_provider_error"
  }

  // ---------------------------------------------------------------- how one call ends

  /** A generation that is accounted for. */
  predicate Accounted(o: Outcome) {
    o.Generated? && o.g.identity && o.g.upstream && o.g.usage
  }

  predicate Acceptable(o: Outcome) {
    Accounted(o) && o.g.json && o.g.valid
  }

  predicate IsCancellation(o: Outcome) {
    o.ProviderWithdrew? || o.TaskCancelled? || o == Errored(Cancellation)
  }

  function FirstEnd(o: Outcome): End {
    if IsCancellation(o) then Withdrew
    else
      match o
      case Generated(g) =>
        if !g.identity then Fail("provider_identity_mismatch")
        else if !g.upstream then Fail("provider_upstream_identity_mismatch")
        else if !g.usage then Fail("invalid_provider_usage")
        else Goes(g)
      case Errored(failure) => Fail("provider_" + FailureText(failure))
      case _ => Fail("provider_unknown_provider_error")
  }

  /** A retry that brings nothing keeps the truncated generation. */
  function RetryEnd(o: Outcome, g: Generation): End {
    if o.ProviderWithdrew? then Withdrew
    else if o.TaskCancelled? then Escaped
    else Goes(if Accounted(o) then o.g else g)
  }

  function RepairEnd(o: Outcome): End {
    if o.ProviderWithdrew? then Withdrew
    else if o.TaskCancelled? then Escaped
    else if Acceptable(o) then Goes(o.g)
    else Fail("invalid_agent_result")
  }

  function StatusEnd(status: ResultStatus): End {
    match status
    case COMPLETED => Ends(Succeeded, None)
    case PARTIAL => Ends(Succeeded, None)
    case CANCELLED => Ends(Cancelled, None)
    case BLOCKED => Fail("agent_result_blocked")
    case NEEDS_INPUT => Fail("agent_result_needs_input")
    case FAILED => Fail("agent_result_failed")
  }

  function ContinuationEnd(o: Outcome): End {
    match o
    case ProviderWithdrew => Withdrew
    case TaskCancelled => Withdrew
    case Broke => Escaped
    case Errored(_) => Fail("tool_continuation_failed")
    case Generated(g) =>
      if !g.identity || !g.upstream || g.truncated then Fail("tool_continuation_failed")
      else if !g.usage then Escaped
      else if g.json && g.proposals > 0 then Fail("tool_round_limit_exceeded")
      else if !g.json || !g.valid then Fail("invalid_agent_result")
      else StatusEnd(g.status)
  }

  // ---------------------------------------------------------------- the protocol

  function BudgetOf(q: Situation, kind: Kind): int {
    Budget(q.expected, q.known, q.ceiling, kind == Truncation)
  }

  function NextCall(q: Situation, answers: seq<Outcome>, calls: seq<Call>, kind: Kind): Call {
    Call(kind, BudgetOf(q, kind), At(answers, |calls|))
  }

  /** An acceptable result ends the run, waits for approval, or goes through its one tool round. */
  function Followed(q: Situation, answers: seq<Outcome>, calls: seq<Call>, g: Generation): Trace {
    if g.proposals == 0 then Trace(calls, StatusEnd(g.status))
    else if g.proposals != 1 || q.permitted == 0 then Trace(calls, Fail("invalid_tool_proposal"))
    else
      match q.gateway
      case NeedsApproval => Trace(calls, Ends(WaitingForApproval, None))
      case Denied(code) => Trace(calls, Fail(code))
      case Evidence => Continued(q, answers, calls)
  }

  /** The contract is compiled again without the shape constraints, so a run that had any does not match it. */
  function Continued(q: Situation, answers: seq<Outcome>, calls: seq<Call>): Trace {
    if q.constrained then Trace(calls, Fail("tool_continuation_contract_mismatch"))
    else if !q.lookupAgain then Trace(calls, Fail("tool_continuation_provider_unavailable"))
    else
      var call := NextCall(q, answers, calls, Continuation);
      Trace(calls + [call], ContinuationEnd(call.outcome))
  }

  /** Truncation, JSON and contract checks, with one repair if there was no retry and there are no tools. */
  function Judged(q: Situation, answers: seq<Outcome>, calls: seq<Call>, g: Generation, extraUsed: bool): Trace {
    if g.truncated then Trace(calls, Fail("provider_output_truncated"))
    else if !g.json then Trace(calls, Fail("invalid_provider_json"))
    else if g.valid then Followed(q, answers, calls, g)
    else if q.permitted > 0 || extraUsed then Trace(calls, Fail("invalid_agent_result"))
    else
      var call := NextCall(q, answers, calls, Repair);
      match RepairEnd(call.outcome)
      case Goes(h) => Followed(q, answers, calls + [call], h)
      case end => Trace(calls + [call], end)
  }

  function Retried(q: Situation, answers: seq<Outcome>, calls: seq<Call>, g: Generation): Trace {
    var call := NextCall(q, answers, calls, Truncation);
    match RetryEnd(call.outcome, g)
    case Goes(h) => Judged(q, answers, calls + [call], h, true)
    case end => Trace(calls + [call], end)
  }

  function Protocol(q: Situation, answers: seq<Outcome>): Trace {
    if !Calls(q) then Trace([], Fail(FailureBefore(q)))
    else
      var call := NextCall(q, answers, [], Initial);
      match FirstEnd(call.outcome)
      case Goes(g) => if g.truncated then Retried(q, answers, [call], g) else Judged(q, answers, [call], g, false)
      case end => Trace([call], end)
  }

  // ---------------------------------------------------------------- what it promises

  /** The exceptions no handler of the call catches: a bare cancellation of a retry or repair, and in a continuation
      anything that is neither a cancellation nor a provider error, unacceptable usage figures included. */
  predicate Escapes(c: Call) {
    match c.kind
    case Initial => false
    case Truncation => c.outcome.TaskCancelled?
    case Repair => c.outcome.TaskCancelled?
    case Continuation => Unhandled(c.outcome)
  }

  /** What no handler of the continuation expects. */
  predicate Unhandled(o: Outcome) {
    || o.Broke?
    || (o.Generated? && o.g.identity && o.g.upstream && !o.g.truncated && !o.g.usage)
  }

  /** The call sequences there can be: nothing, or an initial call, then at most one retry or repair, then at most
      one continuation, and no continuation after a repair. */
  predicate Bounded(calls: seq<Call>) {
    && |calls| <= 3
    && (|calls| > 0 ==> calls[0].kind == Initial)
    && (|calls| > 1 ==> calls[1].kind != Initial)
    && (|calls| > 2 ==> calls[1].kind == Truncation && calls[2].kind == Continuation)
  }

  /** Every call has the budget of its kind and the answer of its turn. */
  predicate Faithful(q: Situation, answers: seq<Outcome>, calls: seq<Call>) {
    forall i :: 0 <= i < |calls| ==>
      calls[i].budget == BudgetOf(q, calls[i].kind) && calls[i].outcome == At(answers, i)
  }

  /** What the accounting must say of a call's model run. */
  function Record(c: Call): ModelRun {
    if Escapes(c) then Open
    else if IsCancellation(c.outcome) then Withdrawn
    else if Accounted(c.outcome) && (c.kind == Continuation ==> !c.outcome.g.truncated) then Done
    else Broken
  }

  function Records(calls: seq<Call>): seq<ModelRun> {
    if calls == [] then [] else Records(calls[..|calls| - 1]) + [Record(calls[|calls| - 1])]
  }

  predicate Quiet(calls: seq<Call>) {
    calls == [] || (!Escapes(calls[|calls| - 1]) && Quiet(calls[..|calls| - 1]))
  }

  lemma Appended(calls: seq<Call>, c: Call)
    ensures Records(calls + [c]) == Records(calls) + [Record(c)]
    ensures Quiet(calls + [c]) <==> Quiet(calls) && !Escapes(c)
  {
    assert (calls + [c])[..|calls|] == calls;
  }

  /** Where the protocol can be on its way: calls so far, none of which escaped. */
  predicate OnTheWay(q: Situation, answers: seq<Outcome>, calls: seq<Call>) {
    Bounded(calls) && Faithful(q, answers, calls) && Quiet(calls) && calls != []
  }

  predicate WellEnded(q: Situation, answers: seq<Outcome>, t: Trace) {
    && Bounded(t.calls) && Faithful(q, answers, t.calls)
    && !t.end.Goes?
    && (t.end.Ends? ==>
      t.end.status in TERMINAL + {WaitingForApproval} && (t.end.failure.Some? <==> t.end.status == Failed))
    && (t.end.Escaped? <==> !Quiet(t.calls))
    && (t.end.Escaped? ==> Escapes(t.calls[|t.calls| - 1]) && Quiet(t.calls[..|t.calls| - 1]))
  }

  lemma ContinuedEndsWell(q: Situation, answers: seq<Outcome>, calls: seq<Call>)
    requires OnTheWay(q, answers, calls) && |calls| <= 2 && (|calls| == 2 ==> calls[1].kind == Truncation)
    ensures WellEnded(q, answers, Continued(q, answers, calls))
  {
    var call := NextCall(q, answers, calls, Continuation);
    Appended(calls, call);
    assert (calls + [call])[..|calls|] == calls;
  }

  lemma FollowedEndsWell(q: Situation, answers: seq<Outcome>, calls: seq<Call>, g: Generation)
    requires OnTheWay(q, answers, calls) && |calls| <= 2
    requires |calls| == 2 ==> calls[1].kind == Truncation || q.permitted == 0
    ensures WellEnded(q, answers, Followed(q, answers, calls, g))
  {
    hide Quiet, Bounded, Faithful;
    if g.proposals == 1 && q.permitted > 0 && q.gateway == Evidence {
      ContinuedEndsWell(q, answers, calls);
    }
  }

  lemma JudgedEndsWell(q: Situation, answers: seq<Outcome>, calls: seq<Call>, g: Generation, extraUsed: bool)
    requires OnTheWay(q, answers, calls) && |calls| <= 2
    requires extraUsed <==> |calls| == 2
    requires extraUsed ==> calls[1].kind == Truncation
    ensures WellEnded(q, answers, Judged(q, answers, calls, g, extraUsed))
  {
    var call := NextCall(q, answers, calls, Repair);
    Appended(calls, call);
    assert (calls + [call])[..|calls|] == calls;
    if g.valid {
      FollowedEndsWell(q, answers, calls, g);
    } else if q.permitted == 0 && !extraUsed && RepairEnd(call.outcome).Goes? {
      FollowedEndsWell(q, answers, calls + [call], call.outcome.g);
    }
    hide Followed, Quiet;
  }

  lemma RetriedEndsWell(q: Situation, answers: seq<Outcome>, first: Call, g: Generation)
    requires OnTheWay(q, answers, [first])
    ensures WellEnded(q, answers, Retried(q, answers, [first], g))
  {
    var call := NextCall(q, answers, [first], Truncation);
    Appended([first], call);
    assert [first] + [call] == [first, call] && [first, call][..1] == [first];
    var end := RetryEnd(call.outcome, g);
    if end.Goes? {
      JudgedEndsWell(q, answers, [first, call], end.g, true);
    }
    hide Judged;
  }

  /**
    * Main result. Whatever the provider answers, there are at most three calls in a permitted sequence, with their
    * budgets; the run ends terminal or waiting for approval, except exactly when a call escaped the handlers, and only
    * the last call can.
    */
  lemma ProtocolEndsWell(q: Situation, answers: seq<Outcome>)
    ensures WellEnded(q, answers, Protocol(q, answers))
  {
    hide Judged, Retried, WellEnded, OnTheWay, FailureBefore, FirstEnd;
    NoCallEndsWell(q, answers);
    FirstCallMade(q, answers);
    var first := NextCall(q, answers, [], Initial);
    var end := FirstEnd(first.outcome);
    if end.Goes? {
      if end.g.truncated {
        RetriedEndsWell(q, answers, first, end.g);
      } else {
        JudgedEndsWell(q, answers, [first], end.g, false);
      }
    }
  }

  lemma NoCallEndsWell(q: Situation, answers: seq<Outcome>)
    ensures WellEnded(q, answers, Trace([], Fail(FailureBefore(q))))
  {
    hide FailureBefore;
  }

  lemma NoCallFails(q: Situation, answers: seq<Outcome>)
    ensures !Calls(q) ==> Protocol(q, answers) == Trace([], Fail(FailureBefore(q)))
  {
    hide FailureBefore, NextCall, FirstEnd, Judged, Retried;
  }

  lemma FirstCallMade(q: Situation, answers: seq<Outcome>)
    ensures var first := NextCall(q, answers, [], Initial); var end := FirstEnd(first.outcome);
      if end.Goes? then OnTheWay(q, answers, [first]) else WellEnded(q, answers, Trace([first], end))
  {
    hide Budget, FailureText;
    var first := NextCall(q, answers, [], Initial);
    assert [] + [first] == [first];
    Appended([], first);
  }

  /** A truncation retry never gets a smaller budget than the call it retries, and any other call gets the same. */
  lemma RetryIsNotSmaller(q: Situation, answers: seq<Outcome>, i: nat)
    requires i < |Protocol(q, answers).calls|
    ensures var calls := Protocol(q, answers).calls;
      && calls[i].budget >= calls[0].budget >= 1
      && (calls[i].kind != Truncation ==> calls[i].budget == calls[0].budget)
  {
    ProtocolEndsWell(q, answers);
    RecoveryIsLarger(q.expected, q.known, q.ceiling);
    hide Protocol, Budget;
  }

  // ---------------------------------------------------------------- the tool round

  predicate IsTruncated(o: Outcome) {
    Accounted(o) && o.g.truncated
  }

  predicate AsksForTool(o: Outcome) {
    Acceptable(o) && !o.g.truncated && o.g.proposals == 1
  }

  /** Which answer is judged, counting from 1, unless a repair brings another. */
  function Turn(answers: seq<Outcome>): nat {
    if IsTruncated(At(answers, 0)) then 2 else 1
  }

  /** The first generation, or the retry of a truncated one, asks for a tool and the gateway has evidence for it. */
  predicate ToolRound(q: Situation, answers: seq<Outcome>) {
    Calls(q) && q.permitted > 0 && q.gateway == Evidence && AsksForTool(At(answers, Turn(answers) - 1))
  }

  predicate Continues(q: Situation, answers: seq<Outcome>) {
    ToolRound(q, answers) && !q.constrained && q.lookupAgain
  }

  /** A tool round ends with its continuation, or without one because of shape constraints or a lost provider. */
  lemma ToolRoundEnds(q: Situation, answers: seq<Outcome>)
    requires ToolRound(q, answers)
    ensures var t := Protocol(q, answers); var turn := Turn(answers);
      && |t.calls| == (if Continues(q, answers) then turn + 1 else turn)
      && t.end == if q.constrained then Fail("tool_continuation_contract_mismatch")
                  else if !q.lookupAgain then Fail("tool_continuation_provider_unavailable")
                  else ContinuationEnd(At(answers, turn))
  {
    hide FailureBefore, FailureText, Budget;
  }

  /** A call is a continuation if and only if it is the last one of an unconstrained tool round whose provider is
      found again. */
  lemma ContinuesExactly(q: Situation, answers: seq<Outcome>)
    ensures var calls := Protocol(q, answers).calls;
      && (Continues(q, answers) ==> |calls| == Turn(answers) + 1)
      && forall i :: 0 <= i < |calls| ==>
           (calls[i].kind == Continuation <==> Continues(q, answers) && i == Turn(answers))
  {
    hide FailureBefore, FailureText, Budget;
  }

  // ---------------------------------------------------------------- the runs that are abandoned

  /** A well-formed generation that fails the contract. */
  predicate IsInvalid(o: Outcome) {
    Accounted(o) && !o.g.truncated && o.g.json && !o.g.valid
  }

  /** The situations and answers that no handler is prepared for: a bare cancellation of the truncation retry or of the
      repair, and whatever a continuation does not expect. */
  predicate Abandoned(q: Situation, answers: seq<Outcome>) {
    || (Calls(q) && IsTruncated(At(answers, 0)) && At(answers, 1) == TaskCancelled)
    || (Calls(q) && q.permitted == 0 && IsInvalid(At(answers, 0)) && At(answers, 1) == TaskCancelled)
    || (Continues(q, answers) && Unhandled(At(answers, Turn(answers))))
  }

  /** Main result: the run is abandoned on exactly these situations and answers. */
  lemma EscapesExactly(q: Situation, answers: seq<Outcome>)
    ensures Protocol(q, answers).end == Escaped <==> Abandoned(q, answers)
  {
    hide Judged, FailureBefore, FailureText, NextCall;
    var first, second := At(answers, 0), At(answers, 1);
    CallAnswered(q, answers);
    if Calls(q) && Accounted(first) {
      var call := NextCall(q, answers, [], Initial);
      JudgedEscapes(q, answers, [call], first.g, false);
      JudgedEscapes(q, answers, [call] + [NextCall(q, answers, [call], Truncation)], first.g, true);
      if Accounted(second) {
        JudgedEscapes(q, answers, [call] + [NextCall(q, answers, [call], Truncation)], second.g, true);
      }
    }
  }

  lemma CallAnswered(q: Situation, answers: seq<Outcome>)
    ensures forall calls, kind :: NextCall(q, answers, calls, kind).outcome == At(answers, |calls|)
  {
  }

  /** From the generation that is judged on, only its repair or its continuation can escape. */
  lemma JudgedEscapes(q: Situation, answers: seq<Outcome>, calls: seq<Call>, g: Generation, extraUsed: bool)
    ensures var next := At(answers, |calls|);
      Judged(q, answers, calls, g, extraUsed).end == Escaped <==>
        && !g.truncated && g.json
        && if !g.valid then q.permitted == 0 && !extraUsed && next == TaskCancelled
           else g.proposals == 1 && q.permitted > 0 && q.gateway == Evidence && !q.constrained && q.lookupAgain
                && Unhandled(next)
  {
    hide FailureText, Budget;
  }

  /** A bare cancellation of the retry of a truncated generation, whenever calls are made at all. */
  lemma CancelledRetryEscapes(q: Situation, answers: seq<Outcome>)
    requires Calls(q) && IsTruncated(At(answers, 0)) && At(answers, 1) == TaskCancelled
    ensures var t := Protocol(q, answers);
      t.end == Escaped && |t.calls| == 2 && t.calls[1].kind == Truncation && t.calls[1].outcome == TaskCancelled
  {
    hide FailureBefore, FailureText, Budget;
  }

  /** A bare cancellation of the repair of an invalid result. */
  lemma CancelledRepairEscapes(q: Situation, answers: seq<Outcome>)
    requires Calls(q) && q.permitted == 0 && IsInvalid(At(answers, 0)) && At(answers, 1) == TaskCancelled
    ensures var t := Protocol(q, answers);
      t.end == Escaped && |t.calls| == 2 && t.calls[1].kind == Repair && t.calls[1].outcome == TaskCancelled
  {
    hide FailureBefore, FailureText, Budget;
  }

  /** Each way of being abandoned exists: a situation without tools and one with, and answers that lead there; with
      shape constraints the last of them only fails. */
  lemma AbandonedRuns()
    returns (q: Situation, cut: seq<Outcome>, wrong: seq<Outcome>, broken: seq<Outcome>, unpaid: seq<Outcome>)
    ensures Protocol(q, cut).end == Protocol(q, broken).end == Protocol(q, unpaid).end == Escaped
    ensures Protocol(q.(permitted := 0), wrong).end == Escaped
    ensures Protocol(q.(constrained := true), broken).end == Fail("tool_continuation_contract_mismatch")
  {
    q := Situation(1, true, true, true, true, Routed, true, Found, true, Evidence, false, true, 1000, None, 8000);
    var g := Generation(true, true, true, false, true, true, 1, COMPLETED);
    cut := [Generated(g.(truncated := true)), TaskCancelled];
    wrong := [Generated(g.(valid := false)), TaskCancelled];
    broken := [Generated(g), Broke];
    unpaid := [Generated(g), Generated(g.(usage := false))];
    EscapesExactly(q, cut);
    EscapesExactly(q.(permitted := 0), wrong);
    EscapesExactly(q, broken);
    EscapesExactly(q, unpaid);
    ToolRoundEnds(q.(constrained := true), broken);
    hide Protocol;
  }
}
