/** `execute` and `continue_with_tool_evidence` of agents/execution.py as they change the run and its accounting, proved
    against the protocol. */
module Execution {
  import opened Options
  import opened AgentRuns
  import opened ExecutionProtocol
  import opened ExecutionOutcomes

  datatype Reply = Returned | Raised

  // ---------------------------------------------------------------- the ledger

  datatype Ledger = Ledger(run: RunState, modelRuns: seq<ModelRun>, calls: seq<Call>)

  /** Between the calls: every model run is recorded as its call ended, and none is open. */
  predicate Going(l: Ledger) {
    l.modelRuns == Records(l.calls) && Quiet(l.calls) && l.run.status == Running
  }

  /** A model run is open for a call that is still to be made. */
  predicate Waiting(l: Ledger) {
    l.modelRuns == Records(l.calls) + [Open] && Quiet(l.calls) && l.run.status == Running
  }

  /** The call has been made and its model run is still open. */
  predicate Called(l: Ledger) {
    && l.calls != [] && l.modelRuns == Records(l.calls[..|l.calls| - 1]) + [Open]
    && Quiet(l.calls[..|l.calls| - 1]) && l.run.status == Running
  }

  /** What an end leaves: after an escaped call its model run and the agent run stay RUNNING. */
  predicate Left(l: Ledger, end: End) {
    match end
    case Goes(_) => Going(l)
    case Ends(status, failure) => l.modelRuns == Records(l.calls) && l.run.status == status && l.run.failure == failure
    case Withdrew => l.modelRuns == Records(l.calls) && l.run.status == Cancelled && l.run.failure == None
    case Escaped => l.modelRuns == Records(l.calls) && l.run.status == Running
  }

  predicate Reached(l: Ledger, t: Trace) {
    l.calls == t.calls && Left(l, t.end)
  }

  /** A run that made no call may have opened a model run, which is then recorded as failed. */
  predicate Refused(l: Ledger, q: Situation) {
    && l.calls == [] && l.modelRuns == (if OpensRun(q) then [Broken] else [])
    && l.run.status == Failed && l.run.failure == Some(FailureBefore(q))
  }

  function ReplyOf(end: End): Reply {
    if end.Withdrew? || end.Escaped? then Raised else Returned
  }

  function Kept(end: End): Option<Generation> {
    if end.Goes? then Some(end.g) else None
  }

  lemma CallMade(before: Ledger, after: Ledger)
    requires Waiting(before) && |after.calls| == |before.calls| + 1 && after.calls[..|before.calls|] == before.calls
    requires after.modelRuns == before.modelRuns && after.run == before.run
    ensures Called(after)
    ensures Escapes(after.calls[|before.calls|]) ==> Left(after, Escaped)
  {
  }

  lemma Closed(before: Ledger, after: Ledger, status: ModelRun)
    requires Called(before) && status != Open && status == Record(before.calls[|before.calls| - 1])
    requires after == before.(modelRuns := before.modelRuns[..|before.modelRuns| - 1] + [status])
    ensures Going(after)
  {
    assert before.modelRuns[..|before.modelRuns| - 1] == Records(before.calls[..|before.calls| - 1]);
  }

  class AgentExecution {
    const agent: AgentRun
    const answers: seq<Outcome>  // what the provider will answer to the calls, in turn
    var modelRuns: seq<ModelRun>
    var calls: seq<Call>

    constructor (now: nat, answers: seq<Outcome>)
      ensures fresh(agent) && this.answers == answers && Fresh()
    {
      agent := new AgentRun(now);
      this.answers := answers;
      modelRuns, calls := [], [];
    }

    ghost function State(): Ledger
      reads this, agent
    {
      Ledger(agent.state, modelRuns, calls)
    }

    ghost predicate Healthy()
      reads this, agent
    {
      Shaped(agent.state) && (agent.state.started.Some? ==> agent.state.started.value <= agent.clock)
    }

    ghost predicate Fresh()
      reads this, agent
    {
      Healthy() && agent.state.status == Created && modelRuns == [] && calls == []
    }

    /** `start_run` of the accounting. */
    method StartModelRun()
      requires Going(State())
      modifies this`modelRuns
      ensures Waiting(State())
    {
      modelRuns := modelRuns + [Open];
    }

    /** `mark_succeeded`, `mark_failed` or `cancel_run` of the accounting, on the run of the call just made. */
    method Close(status: ModelRun)
      requires Called(State()) && status != Open && status == Record(calls[|calls| - 1])
      modifies this`modelRuns
      ensures Going(State())
    {
      ghost var before := State();
      modelRuns := modelRuns[..|modelRuns| - 1] + [status];
      Closed(before, State(), status);
    }

    /** `provider.complete` on the open model run. */
    method Complete(q: Situation, kind: Kind) returns (outcome: Outcome)
      requires Waiting(State())
      modifies this`calls
      ensures var call := NextCall(q, answers, old(calls), kind);
        calls == old(calls) + [call] && outcome == call.outcome && (Escapes(call) ==> Left(State(), Escaped))
      ensures Called(State())
    {
      ghost var before := State();
      var call := NextCall(q, answers, calls, kind);
      calls, outcome := calls + [call], call.outcome;
      CallMade(before, State());
    }

    method FailAgent(code: string)
      requires Healthy() && agent.state.status == Running
      modifies agent
      ensures Healthy() && agent.state.status == Failed && agent.state.failure == Some(code)
    {
      var _ := agent.Transition(Running, Failed, Some(code));
    }

    /** The open model run and the agent run are cancelled together. */
    method Withdraw()
      requires Healthy() && Called(State()) && Record(calls[|calls| - 1]) == Withdrawn
      modifies this`modelRuns, agent
      ensures Healthy() && Left(State(), Withdrew)
    {
      Close(Withdrawn);
      var _ := agent.Cancel();
    }

    /** The open model run and the agent run fail together. */
    method Break(code: string)
      requires Healthy() && Called(State()) && Record(calls[|calls| - 1]) == Broken
      modifies this`modelRuns, agent
      ensures Healthy() && Left(State(), Fail(code))
    {
      Close(Broken);
      FailAgent(code);
    }

    /** `map_result_status` and the transition it asks for. */
    method Conclude(status: ResultStatus)
      requires Healthy() && Going(State())
      modifies agent
      ensures Healthy() && Left(State(), StatusEnd(status))
    {
      match status {
        case COMPLETED => var _ := agent.Transition(Running, Succeeded, None);
        case PARTIAL => var _ := agent.Transition(Running, Succeeded, None);
        case CANCELLED => var _ := agent.Cancel();
        case BLOCKED => FailAgent("agent_result_blocked");
        case NEEDS_INPUT => FailAgent("agent_result_needs_input");
        case FAILED => FailAgent("agent_result_failed");
      }
    }

    // ---------------------------------------------------------------- before the first call

    /** Tools, memory and routing; then the model run is opened, linked, and its provider looked up. */
    method Prepare(q: Situation) returns (go: bool)
      requires Fresh()
      modifies this`modelRuns, agent
      ensures Healthy() && go == Calls(q)
      ensures if go then Waiting(State()) && calls == [] else Refused(State(), q)
    {
      hide Granted, FailureBefore;
      var _ := agent.Transition(Created, Running, None);
      var denied := Admit(q);
      if denied {
        return false;
      }
      StartModelRun();
      go := LookUp(q);
    }

    /** The model run is linked to the agent run and its provider found, or both fail. */
    method LookUp(q: Situation) returns (found: bool)
      requires Healthy() && Waiting(State()) && calls == [] && OpensRun(q)
      modifies this`modelRuns, agent
      ensures Healthy() && found == Calls(q)
      ensures if found then State() == old(State()) else Refused(State(), q)
    {
      var code :=
        if !q.linked then "agent_lifecycle_conflict"
        else if q.lookup == NotRegistered then "provider_" + FailureText(InvalidRequest)
        else if q.lookup == WrongProvider then "provider_identity_mismatch"
        else if q.lookup == LookupBroke then "provider_unknown_provider_error"
        else if !q.strategy then "native_structured_output_required" else "";
      if code != "" {
        modelRuns := modelRuns[..|modelRuns| - 1] + [Broken];
        FailAgent(code);
        return false;
      }
      return true;
    }

    /** The refusals before a model run is opened. */
    method Admit(q: Situation) returns (denied: bool)
      requires Healthy() && agent.state.status == Running
      modifies agent
      ensures Healthy() && denied == !OpensRun(q)
      ensures denied ==> agent.state.status == Failed && agent.state.failure == Some(FailureBefore(q))
      ensures !denied ==> agent.state == old(agent.state)
    {
      if q.permitted > 0 {
        if !q.allowed {
          FailAgent("tool_permission_denied");
          return true;
        }
        if !q.registered {
          FailAgent("unknown_tool_denied");
          return true;
        }
        if !q.rooted {
          FailAgent("workspace_root_unavailable");
          return true;
        }
      }
      if !q.memory {
        FailAgent("memory_context_unavailable");
        return true;
      }
      if q.routing != Routed {
        var code :=
          if q.routing == EnforcementUnsatisfied then "contract_enforcement_unsatisfied" else "no_suitable_model";
        FailAgent(code);
        return true;
      }
      return false;
    }

    // ---------------------------------------------------------------- the calls

    method FirstCall(q: Situation) returns (g: Option<Generation>, r: Reply)
      requires Healthy() && Waiting(State()) && calls == []
      modifies this, agent
      ensures Healthy()
      ensures var call := NextCall(q, answers, [], Initial); var end := FirstEnd(call.outcome);
        Reached(State(), Trace([call], end)) && g == Kept(end) && r == ReplyOf(end)
    {
      hide Records, Quiet;
      g, r := None, Returned;
      var outcome := Complete(q, Initial);
      if IsCancellation(outcome) {
        Withdraw();
        return None, Raised;
      }
      if outcome.Errored? {
        Break("provider_" + FailureText(outcome.failure));
      } else if outcome.Broke? {
        Break("provider_unknown_provider_error");
      } else if !outcome.g.identity {
        Break("provider_identity_mismatch");
      } else if !outcome.g.upstream {
        Break("provider_upstream_identity_mismatch");
      } else if !outcome.g.usage {
        Break("invalid_provider_usage");
      } else {
        Close(Done);
        g := Some(outcome.g);
      }
    }

    /** The one retry of a truncated generation; if it brings nothing, the truncated one is kept. */
    method RetryTruncated(q: Situation, g: Generation) returns (h: Option<Generation>, r: Reply)
      requires Healthy() && Going(State())
      modifies this, agent
      ensures Healthy()
      ensures var call := NextCall(q, answers, old(calls), Truncation); var end := RetryEnd(call.outcome, g);
        Reached(State(), Trace(old(calls) + [call], end)) && h == Kept(end) && r == ReplyOf(end)
    {
      hide Records, Quiet;
      StartModelRun();
      var outcome := Complete(q, Truncation);
      match outcome {
        case ProviderWithdrew =>
          Withdraw();
          return None, Raised;
        case TaskCancelled =>
          return None, Raised;
        case Errored(failure) =>
          Close(if failure == Cancellation then Withdrawn else Broken);
          return Some(g), Returned;
        case Broke =>
          Close(Broken);
          return Some(g), Returned;
        case Generated(made) =>
          var kept := made.identity && made.upstream && made.usage;
          Close(if kept then Done else Broken);
          return Some(if kept then made else g), Returned;
      }
    }

    /** The one repair of an invalid result. */
    method RepairResult(q: Situation) returns (result: Option<Generation>, r: Reply)
      requires Healthy() && Going(State())
      modifies this, agent
      ensures Healthy()
      ensures var call := NextCall(q, answers, old(calls), Repair); var end := RepairEnd(call.outcome);
        Reached(State(), Trace(old(calls) + [call], end)) && result == Kept(end) && r == ReplyOf(end)
    {
      hide Records, Quiet;
      StartModelRun();
      result, r := None, Returned;
      var outcome := Complete(q, Repair);
      match outcome {
        case ProviderWithdrew =>
          Withdraw();
          return None, Raised;
        case TaskCancelled =>
          return None, Raised;
        case Errored(failure) =>
          Close(if failure == Cancellation then Withdrawn else Broken);
        case Broke =>
          Close(Broken);
        case Generated(made) =>
          if !(made.identity && made.upstream && made.usage) {
            Close(Broken);
          } else {
            Close(Done);
            result := if made.json && made.valid then Some(made) else None;
          }
      }
      if result.None? {
        FailAgent("invalid_agent_result");
      }
    }

    /** `continue_with_tool_evidence`, once the tool gateway has given evidence. */
    method ContinueWithEvidence(q: Situation) returns (r: Reply)
      requires Healthy() && Going(State())
      modifies this, agent
      ensures Healthy()
      ensures var t := Continued(q, answers, old(calls)); Reached(State(), t) && r == ReplyOf(t.end)
    {
      hide Records, Quiet;
      if q.constrained {
        FailAgent("tool_continuation_contract_mismatch");
        return Returned;
      }
      if !q.lookupAgain {
        FailAgent("tool_continuation_provider_unavailable");
        return Returned;
      }
      StartModelRun();
      var outcome := Complete(q, Continuation);
      match outcome {
        case ProviderWithdrew =>
          Withdraw();
          return Raised;
        case TaskCancelled =>
          Withdraw();
          return Raised;
        case Broke =>
          return Raised;
        case Errored(failure) =>
          Close(if failure == Cancellation then Withdrawn else Broken);
          FailAgent("tool_continuation_failed");
          return Returned;
        case Generated(made) =>
          r := AcceptContinuation(made);
      }
    }

    /** What the continuation's generation is checked for. */
    method AcceptContinuation(g: Generation) returns (r: Reply)
      requires Healthy() && Called(State()) && calls[|calls| - 1].kind == Continuation
      requires calls[|calls| - 1].outcome == Generated(g)
      requires Escapes(calls[|calls| - 1]) ==> Left(State(), Escaped)
      modifies this`modelRuns, agent
      ensures Healthy()
      ensures var end := ContinuationEnd(Generated(g)); Left(State(), end) && r == ReplyOf(end)
    {
      hide Records, Quiet;
      if !g.identity || !g.upstream || g.truncated {
        Break("tool_continuation_failed");
        return Returned;
      }
      if !g.usage {
        return Raised;
      }
      Close(Done);
      if g.json && g.proposals > 0 {
        FailAgent("tool_round_limit_exceeded");
      } else if !g.json || !g.valid {
        FailAgent("invalid_agent_result");
      } else {
        Conclude(g.status);
      }
      return Returned;
    }

    // ---------------------------------------------------------------- from a generation to the end

    /** What becomes of an acceptable result: a tool round, or the end of the run. */
    method Follow(q: Situation, g: Generation) returns (r: Reply)
      requires Healthy() && Going(State())
      modifies this, agent
      ensures Healthy()
      ensures var t := Followed(q, answers, old(calls), g); Reached(State(), t) && r == ReplyOf(t.end)
    {
      hide Records, Quiet, Continued;
      r := Returned;
      if g.proposals == 0 {
        Conclude(g.status);
        return;
      }
      if g.proposals != 1 || q.permitted == 0 {
        FailAgent("invalid_tool_proposal");
        return;
      }
      match q.gateway {
        case NeedsApproval =>
          var _ := agent.Transition(Running, WaitingForApproval, None);
        case Denied(code) =>
          FailAgent(code);
        case Evidence =>
          r := ContinueWithEvidence(q);
      }
    }

    /** Truncation, JSON and contract checks, with the one repair. */
    method Judge(q: Situation, g: Generation, extraUsed: bool) returns (r: Reply)
      requires Healthy() && Going(State())
      modifies this, agent
      ensures Healthy()
      ensures var t := Judged(q, answers, old(calls), g, extraUsed); Reached(State(), t) && r == ReplyOf(t.end)
    {
      hide Records, Quiet, Followed;
      if g.truncated {
        FailAgent("provider_output_truncated");
        return Returned;
      }
      if !g.json {
        FailAgent("invalid_provider_json");
        return Returned;
      }
      if g.valid {
        r := Follow(q, g);
        return;
      }
      if q.permitted > 0 || extraUsed {
        FailAgent("invalid_agent_result");
        return Returned;
      }
      var result;
      result, r := RepairResult(q);
      if result.Some? {
        r := Follow(q, result.value);
      }
    }

    /**
      * Main result: the calls made, the accounting of each, the status and failure code of the run and the way
      * `execute` ends are those of the protocol, in a legal lifecycle shape; the run stays RUNNING, with a model run
      * open, on exactly the situations and answers that no handler is prepared for.
      */
    method Execute(q: Situation) returns (r: Reply)
      requires Fresh()
      modifies this, agent
      ensures Shaped(agent.state)
      ensures var t := Protocol(q, answers);
        (if Calls(q) then Reached(State(), t) else Refused(State(), q)) && r == ReplyOf(t.end)
      ensures r == Raised <==> Protocol(q, answers).end in {Withdrew, Escaped}
      ensures agent.state.status == Running <==> Abandoned(q, answers)
      ensures AllClosed(modelRuns) <==> !Abandoned(q, answers)
      ensures agent.state.status == Succeeded <==>
        exists g :: Concludes(q, answers, g) && g.status in {COMPLETED, PARTIAL}
      ensures forall g :: Concludes(q, answers, g) ==> RunsOut(agent.state, g.status)
      ensures if Calls(q) then AllAccounted(calls, modelRuns) else modelRuns == if OpensRun(q) then [Broken] else []
    {
      hide Protocol, Abandoned, Concludes, RunsOut, Calls, OpensRun;
      r := CarryOut(q);
      OpenExactlyIfAbandoned(q, answers, State());
      RunsOutAsConcluded(q, answers, State());
    }

    /** The body of `execute`, call by call. */
    method CarryOut(q: Situation) returns (r: Reply)
      requires Fresh()
      modifies this, agent
      ensures Shaped(agent.state)
      ensures var t := Protocol(q, answers);
        (if Calls(q) then Reached(State(), t) else Refused(State(), q)) && r == ReplyOf(t.end)
    {
      hide Records, Quiet, Judged;
      var go := Prepare(q);
      if !go {
        return Returned;
      }
      var g;
      g, r := FirstCall(q);
      if g.Some? && g.value.truncated {
        g, r := RetryTruncated(q, g.value);
        if g.Some? {
          r := Judge(q, g.value, true);
        }
      } else if g.Some? {
        r := Judge(q, g.value, false);
      }
    }
  }

  predicate AllClosed(runs: seq<ModelRun>) {
    forall i :: 0 <= i < |runs| ==> runs[i] != Open
  }

  lemma {:induction false} ClosedIfQuiet(calls: seq<Call>)
    ensures |Records(calls)| == |calls| && (Quiet(calls) <==> AllClosed(Records(calls)))
  {
    if calls != [] {
      var n := |calls| - 1;
      ClosedIfQuiet(calls[..n]);
      assert forall i :: 0 <= i < n ==> Records(calls)[i] == Records(calls[..n])[i];
      assert Records(calls)[n] == Record(calls[n]);
    }
  }

  /** A run is left RUNNING, and one of its model runs open, on exactly the situations and answers that no handler is
      prepared for. */
  lemma OpenExactlyIfAbandoned(q: Situation, answers: seq<Outcome>, l: Ledger)
    requires if Calls(q) then Reached(l, Protocol(q, answers)) else Refused(l, q)
    ensures l.run.status == Running <==> Abandoned(q, answers)
    ensures AllClosed(l.modelRuns) <==> !Abandoned(q, answers)
    ensures l.run.status in TERMINAL + {WaitingForApproval} <==> !Abandoned(q, answers)
  {
    hide Protocol, Records, Quiet, OpensRun, FailureBefore, Bounded, Faithful, Abandoned;
    NoCallFails(q, answers);
    ProtocolEndsWell(q, answers);
    EscapesExactly(q, answers);
    ClosedIfQuiet(l.calls);
  }

  predicate AllAccounted(calls: seq<Call>, runs: seq<ModelRun>) {
    |runs| == |calls| && forall i :: 0 <= i < |calls| ==> Accounts(calls[i], runs[i])
  }

  /** A run succeeds if and only if a generation concludes it so, and any result status ends it as it should. */
  lemma RunsOutAsConcluded(q: Situation, answers: seq<Outcome>, l: Ledger)
    requires if Calls(q) then Reached(l, Protocol(q, answers)) else Refused(l, q)
    ensures l.run.status == Succeeded <==> exists g :: Concludes(q, answers, g) && g.status in {COMPLETED, PARTIAL}
    ensures forall g :: Concludes(q, answers, g) ==> RunsOut(l.run, g.status)
    ensures if Calls(q) then AllAccounted(l.calls, l.modelRuns)
            else l.modelRuns == if OpensRun(q) then [Broken] else []
  {
    hide Protocol, Concludes, Records, Bounded, Faithful, FailureBefore, OpensRun, Quiet, Accounts;
    NoCallFails(q, answers);
    ProtocolEndsWell(q, answers);
    SucceedsExactly(q, answers);
    RecordsAccount(l.calls);
    forall g | Concludes(q, answers, g)
      ensures RunsOut(l.run, g.status)
    {
      ConclusionEnds(q, answers, g);
      ConcludedIsCalled(q, answers, g);
    }
  }

  lemma ConcludedIsCalled(q: Situation, answers: seq<Outcome>, g: Generation)
    requires Concludes(q, answers, g)
    ensures Calls(q)
  {
  }

  /** An execution that is cancelled during its truncation retry leaves both runs RUNNING. */
  method CancelledDuringRetry(q: Situation, truncated: Generation) returns (e: AgentExecution)
    requires Calls(q) && IsTruncated(Generated(truncated))
    ensures fresh(e) && |e.modelRuns| == 2 && e.modelRuns[1] == Open && e.agent.state.status == Running
  {
    var answers := [Generated(truncated), TaskCancelled];
    e := new AgentExecution(0, answers);
    var r := e.Execute(q);
    CancelledRetryEscapes(q, answers);
    ClosedIfQuiet(e.calls);
    LastRecord(e.calls);
  }

  lemma LastRecord(calls: seq<Call>)
    requires calls != []
    ensures |Records(calls)| == |calls| && Records(calls)[|calls| - 1] == Record(calls[|calls| - 1])
  {
    ClosedIfQuiet(calls);
    ClosedIfQuiet(calls[..|calls| - 1]);
  }
}
