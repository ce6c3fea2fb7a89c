/** How an execution ends, read off the situation and the provider's answers: the codes, statuses and calls that
    agents/execution.py promises for each, independently of the order in which it finds them out. */
module ExecutionOutcomes {
  import opened Options
  import opened AgentRuns
  import opened ExecutionProtocol

  // ---------------------------------------------------------------- before the first call

  /** What must hold before there is a call, in the order of the checks, and the code of each. */
  function Checks(q: Situation): seq<(bool, string)> {
    [ (q.permitted > 0 ==> q.allowed, "tool_permission_denied"),
      (q.permitted > 0 ==> q.registered, "unknown_tool_denied"),
      (q.permitted > 0 ==> q.rooted, "workspace_root_unavailable"),
      (q.memory, "memory_context_unavailable"),
      (q.routing != EnforcementUnsatisfied, "contract_enforcement_unsatisfied"),
      (q.routing != NoSuitableModel, "no_suitable_model"),
      (q.linked, "agent_lifecycle_conflict"),
      (q.lookup != NotRegistered, "provider_" + "invalid_request"),
      (q.lookup != WrongProvider, "provider_identity_mismatch"),
      (q.lookup != LookupBroke, "provider_unknown_provider_error"),
      (q.strategy, "native_structured_output_required") ]
  }

  /** The first check that fails ends the run with its code; if none does there is a call. */
  lemma FirstRefusal(q: Situation, answers: seq<Outcome>, k: nat)
    requires k < |Checks(q)| && !Checks(q)[k].0 && forall i :: 0 <= i < k ==> Checks(q)[i].0
    ensures Protocol(q, answers) == Trace([], Fail(Checks(q)[k].1))
  {
    hide NextCall, FirstEnd, Retried, Judged;
    var c := Checks(q);
    assert (k > 0 ==> c[0].0) && (k > 1 ==> c[1].0) && (k > 2 ==> c[2].0) && (k > 3 ==> c[3].0) && (k > 4 ==> c[4].0);
    assert (k > 5 ==> c[5].0) && (k > 6 ==> c[6].0) && (k > 7 ==> c[7].0) && (k > 8 ==> c[8].0) && (k > 9 ==> c[9].0);
  }

  lemma CallsIfUnrefused(q: Situation)
    ensures Calls(q) <==> forall i :: 0 <= i < |Checks(q)| ==> Checks(q)[i].0
  {
    assert Calls(q) ==> forall i :: 0 <= i < |Checks(q)| ==> Checks(q)[i].0;
    if forall i :: 0 <= i < |Checks(q)| ==> Checks(q)[i].0 {
      var c := Checks(q);
      assert c[0].0 && c[1].0 && c[2].0 && c[3].0 && c[4].0 && c[5].0;
      assert c[6].0 && c[7].0 && c[8].0 && c[9].0 && c[10].0;
    }
  }

  // ---------------------------------------------------------------- the first answer

  /** An answer that brings no generation to go on with ends the run at once. */
  lemma FirstAnswerEnds(q: Situation, answers: seq<Outcome>)
    requires Calls(q)
    ensures var t := Protocol(q, answers); var o := At(answers, 0);
      && (o in {ProviderWithdrew, TaskCancelled, Errored(Cancellation)} ==> t.end == Withdrew && |t.calls| == 1)
      && (o == Errored(Authentication) ==> t.end == Fail("provider_" + "authentication_configuration"))
      && (o == Errored(RateLimit) ==> t.end == Fail("provider_" + "rate_limit"))
      && (o == Errored(Timeout) ==> t.end == Fail("provider_" + "timeout"))
      && (o == Errored(Transient) ==> t.end == Fail("provider_" + "transient_service_unavailable"))
      && (o == Errored(InvalidRequest) ==> t.end == Fail("provider_" + "invalid_request"))
      && (o == Errored(MalformedResponse) ==> t.end == Fail("provider_" + "malformed_response"))
      && (o == Errored(Refusal) ==> t.end == Fail("provider_" + "refusal_safety"))
      && (o == Errored(Unknown) ==> t.end == Fail("provider_" + "unknown_provider_error"))
      && (o == Broke ==> t.end == Fail("provider_unknown_provider_error"))
      && (!o.Generated? ==> |t.calls| == 1)
  {
    hide Retried, Judged, Budget, FailureBefore;
  }

  /** So does a generation of another model, another upstream, or with unacceptable usage figures. */
  lemma FirstGenerationRefused(q: Situation, answers: seq<Outcome>)
    requires Calls(q) && At(answers, 0).Generated?
    ensures var t := Protocol(q, answers); var g := At(answers, 0).g;
      && (!g.identity ==> t.end == Fail("provider_identity_mismatch"))
      && (g.identity && !g.upstream ==> t.end == Fail("provider_upstream_identity_mismatch"))
      && (g.identity && g.upstream && !g.usage ==> t.end == Fail("invalid_provider_usage"))
      && (!(g.identity && g.upstream && g.usage) ==> |t.calls| == 1)
  {
    hide Retried, Judged, Budget, FailureBefore;
  }

  // ---------------------------------------------------------------- the retry and the repair

  /** A truncated generation is retried once.  What the retry brings is judged in its place; if it brings nothing, the
      truncated generation stands and fails. */
  lemma RetryDecides(q: Situation, answers: seq<Outcome>)
    requires Calls(q) && IsTruncated(At(answers, 0))
    ensures var t := Protocol(q, answers); var o := At(answers, 1);
      && |t.calls| >= 2 && t.calls[1].kind == Truncation
      && (o == ProviderWithdrew ==> t.end == Withdrew && |t.calls| == 2)
      && (o == TaskCancelled ==> t.end == Escaped && |t.calls| == 2)
      && (o.Errored? || o == Broke ==> t.end == Fail("provider_output_truncated") && |t.calls| == 2)
      && (o.Generated? ==>
            var g := o.g;
            && (!(g.identity && g.upstream && g.usage) || g.truncated ==> t.end == Fail("provider_output_truncated"))
            && (g.identity && g.upstream && g.usage && !g.truncated && !g.json ==>
                  t.end == Fail("invalid_provider_json"))
            && (g.identity && g.upstream && g.usage && !g.truncated && g.json && !g.valid ==>
                  t.end == Fail("invalid_agent_result")))
  {
    hide StatusEnd, ContinuationEnd, Budget, FailureBefore, FailureText;
  }

  /** An untruncated generation that is no JSON fails; one that breaks the contract is repaired once, unless the agent
      may use tools. */
  lemma RepairDecides(q: Situation, answers: seq<Outcome>)
    requires Calls(q) && Accounted(At(answers, 0)) && !At(answers, 0).g.truncated && !Acceptable(At(answers, 0))
    ensures var t := Protocol(q, answers); var g := At(answers, 0).g; var o := At(answers, 1);
      if !g.json then |t.calls| == 1 && t.end == Fail("invalid_provider_json")
      else if q.permitted > 0 then |t.calls| == 1 && t.end == Fail("invalid_agent_result")
      else
        && |t.calls| == 2 && t.calls[1].kind == Repair
        && (o == ProviderWithdrew ==> t.end == Withdrew)
        && (o == TaskCancelled ==> t.end == Escaped)
        && (o.Errored? || o == Broke ==> t.end == Fail("invalid_agent_result"))
        && (o.Generated? && !(o.g.identity && o.g.upstream && o.g.usage && o.g.json && o.g.valid) ==>
              t.end == Fail("invalid_agent_result"))
  {
    hide Continued, Budget, FailureBefore;
  }

  // ---------------------------------------------------------------- the result

  predicate Usable(o: Outcome, g: Generation) {
    o == Generated(g) && g.identity && g.upstream && g.usage && g.json && g.valid
  }

  /** The generation whose result is acted on: the first one, the retry of a truncated one, or the repair of an
      invalid one. */
  predicate Decides(q: Situation, answers: seq<Outcome>, g: Generation) {
    && Calls(q)
    && var first, second := At(answers, 0), At(answers, 1);
       || (Usable(first, g) && !g.truncated)
       || (IsTruncated(first) && Usable(second, g) && !g.truncated)
       || (q.permitted == 0 && IsInvalid(first) && Usable(second, g))
  }

  lemma DecidingResult(q: Situation, answers: seq<Outcome>, g: Generation) returns (calls: seq<Call>)
    requires Decides(q, answers, g)
    ensures Protocol(q, answers) == Followed(q, answers, calls, g)
  {
    hide Followed, Budget, FailureBefore;
    var first := NextCall(q, answers, [], Initial);
    calls := if Usable(At(answers, 0), g) && !g.truncated then [first]
             else if IsTruncated(At(answers, 0)) then [first] + [NextCall(q, answers, [first], Truncation)]
             else [first] + [NextCall(q, answers, [first], Repair)];
  }

  /** A result that asks for no tool, or asks in vain, ends the run. */
  lemma ResultEnds(q: Situation, answers: seq<Outcome>, g: Generation)
    requires Decides(q, answers, g)
    ensures var end := Protocol(q, answers).end;
      && (g.proposals == 0 ==> EndsWithStatus(end, g.status))
      && (g.proposals > 1 || (g.proposals == 1 && q.permitted == 0) ==> end == Fail("invalid_tool_proposal"))
      && (g.proposals == 1 && q.permitted > 0 ==>
            && (q.gateway == NeedsApproval ==> end == Ends(WaitingForApproval, None))
            && (q.gateway.Denied? ==> end == Fail(q.gateway.code))
            && (q.gateway == Evidence && q.constrained ==> end == Fail("tool_continuation_contract_mismatch"))
            && (q.gateway == Evidence && !q.constrained && !q.lookupAgain ==>
                  end == Fail("tool_continuation_provider_unavailable")))
  {
    hide Protocol, Decides, Budget;
    var calls := DecidingResult(q, answers, g);
  }

  /** The result status decides how the run ends. */
  predicate EndsWithStatus(end: End, status: ResultStatus) {
    && (end == Ends(Succeeded, None) <==> status in {COMPLETED, PARTIAL})
    && (end == Ends(Cancelled, None) <==> status == CANCELLED)
    && (end == Fail("agent_result_blocked") <==> status == BLOCKED)
    && (end == Fail("agent_result_needs_input") <==> status == NEEDS_INPUT)
    && (end == Fail("agent_result_failed") <==> status == FAILED)
  }

  /** The answer to the continuation ends the run. */
  lemma ContinuationEnds(q: Situation, answers: seq<Outcome>)
    requires Continues(q, answers)
    ensures var end := Protocol(q, answers).end; var o := At(answers, Turn(answers));
      && (o in {ProviderWithdrew, TaskCancelled} ==> end == Withdrew)
      && (o.Errored? ==> end == Fail("tool_continuation_failed"))
      && (o == Broke ==> end == Escaped)
      && (o.Generated? ==>
            var g := o.g;
            && (!g.identity || !g.upstream || g.truncated ==> end == Fail("tool_continuation_failed"))
            && (g.identity && g.upstream && !g.truncated ==>
                  && (!g.usage ==> end == Escaped)
                  && (g.usage && g.json && g.proposals > 0 ==> end == Fail("tool_round_limit_exceeded"))
                  && (g.usage && !g.json ==> end == Fail("invalid_agent_result"))
                  && (g.usage && g.json && g.proposals == 0 && !g.valid ==> end == Fail("invalid_agent_result"))
                  && (Usable(o, g) && g.proposals == 0 ==> EndsWithStatus(end, g.status))))
  {
    hide Protocol;
    ToolRoundEnds(q, answers);
  }

  // ---------------------------------------------------------------- which runs succeed

  /** The generation whose status ends the run: one that decides and asks for no tool, or that of a continuation. */
  predicate Concludes(q: Situation, answers: seq<Outcome>, g: Generation) {
    && g.proposals == 0
    && (|| Decides(q, answers, g)
        || (Continues(q, answers) && Usable(At(answers, Turn(answers)), g) && !g.truncated))
  }

  lemma ConclusionEnds(q: Situation, answers: seq<Outcome>, g: Generation)
    requires Concludes(q, answers, g)
    ensures EndsWithStatus(Protocol(q, answers).end, g.status)
  {
    hide Protocol, Decides, Continues, EndsWithStatus;
    if Decides(q, answers, g) {
      ResultEnds(q, answers, g);
    } else {
      ContinuationEnds(q, answers);
    }
  }

  /** Main result: a run succeeds if and only if a generation concludes it as completed or partial. */
  lemma SucceedsExactly(q: Situation, answers: seq<Outcome>)
    ensures Protocol(q, answers).end == Ends(Succeeded, None) <==>
      exists g :: Concludes(q, answers, g) && g.status in {COMPLETED, PARTIAL}
  {
    if g :| Concludes(q, answers, g) && g.status in {COMPLETED, PARTIAL} {
      ConclusionEnds(q, answers, g);
    }
    if Protocol(q, answers).end == Ends(Succeeded, None) {
      var g := SuccessIsConcluded(q, answers);
    }
  }

  function Deciding(answers: seq<Outcome>): Outcome {
    if IsTruncated(At(answers, 0)) || IsInvalid(At(answers, 0)) then At(answers, 1) else At(answers, 0)
  }

  lemma SuccessIsDecided(q: Situation, answers: seq<Outcome>)
    requires Protocol(q, answers).end == Ends(Succeeded, None)
    ensures Deciding(answers).Generated? && Decides(q, answers, Deciding(answers).g)
  {
    hide Followed, Budget, FailureBefore, FailureText;
  }

  lemma SuccessIsConcluded(q: Situation, answers: seq<Outcome>) returns (g: Generation)
    requires Protocol(q, answers).end == Ends(Succeeded, None)
    ensures Concludes(q, answers, g) && g.status in {COMPLETED, PARTIAL}
  {
    hide Protocol;
    SuccessIsDecided(q, answers);
    g := Deciding(answers).g;
    ResultEnds(q, answers, g);
    if g.proposals != 0 {
      assert Continues(q, answers);
      ContinuationEnds(q, answers);
      g := At(answers, Turn(answers)).g;
    }
  }

  /** A run as its result status asks. */
  predicate RunsOut(run: RunState, status: ResultStatus) {
    && (run.status == Succeeded <==> status in {COMPLETED, PARTIAL})
    && (run.status == Cancelled <==> status == CANCELLED)
    && (run.status == Failed <==> status in {BLOCKED, NEEDS_INPUT, FAILED})
    && run.failure == match status
                      case BLOCKED => Some("agent_result_blocked")
                      case NEEDS_INPUT => Some("agent_result_needs_input")
                      case FAILED => Some("agent_result_failed")
                      case _ => None
  }

  // ---------------------------------------------------------------- the budgets

  /** The retry of a truncated generation gets half as much again as the other calls, and these the expectation and half
      of it, within the bounds. */
  lemma CallBudgets(q: Situation, answers: seq<Outcome>, i: nat, t: nat, u: nat)
    requires i < |Protocol(q, answers).calls| && q.ceiling >= 1 && WithHalf(q.expected, t) && WithHalf(t, u)
    ensures var call := Protocol(q, answers).calls[i];
      var bound := if q.known in {None, Some(0)} || q.known.value > q.ceiling then q.ceiling else q.known.value;
      var wanted := if call.kind == Truncation then u else t;
      call.budget == if wanted > bound then bound else if wanted == 0 then 1 else wanted
  {
    hide Protocol, Budget, WithHalf;
    ProtocolEndsWell(q, answers);
    BudgetIsExact(q.expected, q.known, q.ceiling, t, u);
  }

  // ---------------------------------------------------------------- the accounting

  /** Each call's model run says how the call ended: done with an accepted generation, withdrawn with a cancellation
      that was handled, left open by what no handler expects, and failed otherwise. */
  predicate Accounts(c: Call, run: ModelRun) {
    && (run == Done <==>
          && c.outcome.Generated? && c.outcome.g.identity && c.outcome.g.upstream && c.outcome.g.usage
          && (c.kind == Continuation ==> !c.outcome.g.truncated))
    && (run == Withdrawn <==>
          || c.outcome in {ProviderWithdrew, Errored(Cancellation)}
          || (c.outcome == TaskCancelled && c.kind in {Initial, Continuation}))
    && (run == Open <==>
          || (c.outcome == TaskCancelled && c.kind in {Truncation, Repair})
          || (c.kind == Continuation && Unhandled(c.outcome)))
  }

  lemma {:induction false} RecordsAccount(calls: seq<Call>)
    ensures |Records(calls)| == |calls|
    ensures forall i :: 0 <= i < |calls| ==> Accounts(calls[i], Records(calls)[i])
  {
    if calls != [] {
      var n := |calls| - 1;
      RecordsAccount(calls[..n]);
      assert forall i :: 0 <= i < n ==> calls[i] == calls[..n][i] && Records(calls)[i] == Records(calls[..n])[i];
      assert Records(calls)[n] == Record(calls[n]);
    }
  }
}
