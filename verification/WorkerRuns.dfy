/** What holds of the verification worker over every interleaving of requests and probe endings. */
module WorkerRuns {
  import opened Worker
  import opened Options

  datatype Event = Asked(op: Op, peer: Pid, env: Env) | Ended(completion: Completion)

  function Step(s: State, e: Event): State {
    match e
    case Asked(op, peer, env) => Handle(s, op, peer, env).0
    case Ended(c) => if s.active.Some? then Complete(s, c) else s
  }

  function Run(s: State, events: seq<Event>): State {
    if events == [] then s else Step(Run(s, events[..|events| - 1]), events[|events| - 1])
  }

  /** Capabilities are 256-bit random tokens: a prepare never draws one twice. */
  predicate FreshDraw(s: State, e: Event) {
    e.Asked? && e.op.Prepare? ==> e.env.capability !in s.issued
  }

  predicate FreshDraws(s: State, events: seq<Event>) {
    forall i :: 0 <= i < |events| ==> FreshDraw(Run(s, events[..i]), events[i])
  }

  // ---------------------------------------------------------------- the invariant

  /** Never both a waiting capability and a running probe, and neither of them while blocked. */
  predicate Exclusive(s: State) {
    !(s.pending.Some? && s.active.Some?) && (s.pending.Some? || s.active.Some? ==> !s.blocked)
  }

  predicate GrantMatches(s: State, start: Start) {
    start.capability in s.issued && s.issued[start.capability].peer == start.peer &&
    start.at < s.issued[start.capability].expires && s.issued[start.capability].run == start.run
  }

  /** Every start used its own capability, by the peer it was granted to, before it expired. */
  predicate OneStartPerGrant(s: State) {
    && (forall i :: 0 <= i < |s.started| ==> GrantMatches(s, s.started[i]))
    && (forall i, j :: 0 <= i < j < |s.started| ==> s.started[i].capability != s.started[j].capability)
  }

  predicate PendingUnused(s: State) {
    s.pending.Some? ==>
      var p := s.pending.value;
      p.capability in s.issued && s.issued[p.capability] == Grant(p.peer, p.expires, p.run) &&
      forall i :: 0 <= i < |s.started| ==> s.started[i].capability != p.capability
  }

  function Live(s: State): set<RunId> {
    (if s.pending.Some? then {s.pending.value.run} else {}) + (if s.active.Some? then {s.active.value.run} else {})
  }

  /** `current.json` names the running probe, and only it while the worker is not blocked; unless a
      write error was not handled, the snapshots on disk are those of the live run. */
  predicate FilesMatch(s: State) {
    && (s.active.Some? ==> s.current == Some(s.active.value.run))
    && (!s.blocked && s.active.None? ==> s.current.None?)
    && (!s.blocked && !s.leaked ==> s.snapshots == Live(s))
  }

  predicate Inv(s: State) {
    Exclusive(s) && OneStartPerGrant(s) && PendingUnused(s) && FilesMatch(s)
  }

  lemma RestartInv(disk: State, cleaned: bool)
    ensures Inv(Restart(disk, cleaned))
  {}

  lemma ExpireInv(s: State, env: Env)
    requires Inv(s)
    ensures Inv(Expire(s, env)) && Expire(s, env).issued == s.issued
    ensures Expire(s, env).pending.Some? ==> env.now < Expire(s, env).pending.value.expires
  {}

  lemma StepInv(s: State, e: Event)
    requires Inv(s) && FreshDraw(s, e)
    ensures Inv(Step(s, e))
  {
    if e.Asked? {
      ExpireInv(s, e.env);
      var s1 := Expire(s, e.env);
      match e.op
      case Prepare => PrepareInv(s1, e.peer, e.env);
      case Verify(capability) => VerifyInv(s1, capability, e.peer, e.env);
      case _ =>
    }
  }

  lemma PrepareInv(s: State, peer: Pid, env: Env)
    requires Inv(s) && env.capability !in s.issued
    ensures Inv(OnPrepare(s, peer, env).0)
  {
    var t := OnPrepare(s, peer, env).0;
    forall i | 0 <= i < |s.started|
      ensures GrantMatches(t, s.started[i]) && s.started[i].capability != env.capability
    {
      assert GrantMatches(s, s.started[i]);
    }
  }

  lemma VerifyInv(s: State, capability: Capability, peer: Pid, env: Env)
    requires Inv(s) && (s.pending.Some? ==> env.now < s.pending.value.expires)
    ensures Inv(OnVerify(s, capability, peer, env).0)
  {
    var t := OnVerify(s, capability, peer, env).0;
    forall i | 0 <= i < |t.started|
      ensures GrantMatches(t, t.started[i])
    {
      if i < |s.started| {
        assert GrantMatches(s, s.started[i]) && t.started[i] == s.started[i];
      }
    }
  }

  lemma {:induction false} RunInv(s: State, events: seq<Event>)
    requires Inv(s) && FreshDraws(s, events)
    ensures Inv(Run(s, events))
  {
    if events != [] {
      var n := |events| - 1;
      forall i | 0 <= i < n
        ensures FreshDraw(Run(s, events[..n][..i]), events[..n][i])
      {
        assert events[..n][..i] == events[..i];
        assert FreshDraw(Run(s, events[..i]), events[i]);
      }
      RunInv(s, events[..n]);
      assert FreshDraw(Run(s, events[..n]), events[n]);
      StepInv(Run(s, events[..n]), events[n]);
    }
  }

  // ---------------------------------------------------------------- consequences

  /** A block is never cleared, although the last lines of the probe assign it outright. */
  lemma StepKeepsBlock(s: State, e: Event)
    requires Inv(s) && s.blocked
    ensures Step(s, e).blocked
  {}

  /** An accepted `verify` finds no running job: nothing is overwritten. */
  lemma AcceptedWhenIdle(s: State, op: Op, peer: Pid, env: Env)
    requires Inv(s) && Handle(s, op, peer, env).1.Accepted?
    ensures s.active.None? && !s.blocked
    ensures s.pending.Some? && peer == s.pending.value.peer && env.now < s.pending.value.expires
    ensures Handle(s, op, peer, env).0.started ==
      s.started + [Start(s.pending.value.capability, peer, env.now, s.pending.value.run)]
    ensures var (t, r) := Handle(s, op, peer, env);
      !t.blocked && t.active == Some(Job(r.run, s.pending.value.digest, false))
  {}

  /** Main result: over every interleaving from a fresh process on, a waiting capability and a
      running probe exclude each other and a block; the block, once set, stays; and each capability
      starts at most one run, for the peer that prepared it, before it expires. */
  lemma {:induction false} EveryRunIsSafe(disk: State, cleaned: bool, events: seq<Event>, k: nat)
    requires FreshDraws(Restart(disk, cleaned), events) && k <= |events|
    ensures var s := Run(Restart(disk, cleaned), events);
      Exclusive(s) && OneStartPerGrant(s) && FilesMatch(s)
    ensures Run(Restart(disk, cleaned), events[..k]).blocked ==> Run(Restart(disk, cleaned), events).blocked
    decreases |events|
  {
    hide Restart, Step, FreshDraw;
    var s0 := Restart(disk, cleaned);
    RestartInv(disk, cleaned);
    RunInv(s0, events);
    if k == |events| {
      assert events[..k] == events;
    } else {
      var n := |events| - 1;
      FreshPrefix(s0, events, n);
      RunInv(s0, events[..n]);
      EveryRunIsSafe(disk, cleaned, events[..n], k);
      assert events[..n][..k] == events[..k];
      if Run(s0, events[..n]).blocked {
        StepKeepsBlock(Run(s0, events[..n]), events[n]);
      }
    }
  }

  lemma FreshPrefix(s: State, events: seq<Event>, n: nat)
    requires FreshDraws(s, events) && n <= |events|
    ensures FreshDraws(s, events[..n])
  {
    forall i | 0 <= i < n
      ensures FreshDraw(Run(s, events[..n][..i]), events[..n][i])
    {
      assert events[..n][..i] == events[..i];
      assert FreshDraw(Run(s, events[..i]), events[i]);
    }
  }

  /** No run is lost to a crash: the process that comes after one with a running probe answers for
      that run as reconciled, and honours no capability of its predecessor. */
  lemma CrashIsReconciled(s: State, cleaned: bool, op: Op, peer: Pid, env: Env)
    requires Inv(s) && s.active.Some?
    ensures var t := Restart(s, cleaned);
      var run := s.active.value.run;
      t.recent == Some(Reconciled(run, cleaned)) && t.current.None? &&
      (op == Result(run) ==> Handle(t, op, peer, env).1 == Reported(Reconciled(run, cleaned))) &&
      (op.Verify? ==> Handle(t, op, peer, env).1 == Error("invalid_capability"))
  {}

  /** A finished run is reported until the next one ends, also by a process started later. */
  lemma FinishedIsReported(s: State, c: Completion, cleaned: bool, peer: Pid, env: Env)
    requires Inv(s) && s.active.Some? && c.stored && c.unlinked && c.empty && c.destroyed
    ensures var run := s.active.value.run;
      var report := Reported(Finished(run, c.passed));
      Handle(Complete(s, c), Result(run), peer, env).1 == report &&
      Handle(Restart(Complete(s, c), cleaned), Result(run), peer, env).1 == report
  {}

  // ---------------------------------------------------------------- what each request is answered

  predicate Unexpired(s: State, env: Env) {
    s.pending.Some? ==> env.now < s.pending.value.expires
  }

  /** A capability that has expired is gone with the next request, whatever that is, and cannot start a run. */
  lemma ExpiryIsEnforced(s: State, op: Op, peer: Pid, env: Env)
    requires Inv(s) && !Unexpired(s, env)
    ensures var (t, r) := Handle(s, op, peer, env);
      && (op.Verify? ==> r == Error("invalid_capability") && t.started == s.started && t.active.None?)
      && (op == Health ==> r == Ready(!env.cleaned, false) && t.pending.None?)
      && (!env.cleaned ==> t.blocked && t.pending.None? && t.snapshots == s.snapshots)
      && (env.cleaned && !op.Prepare? ==> !t.blocked && t.snapshots == s.snapshots - {s.pending.value.run})
  {
  }

  /** Health tells whether the worker is blocked and whether a capability waits or a probe runs. */
  lemma HealthIsAnswered(s: State, peer: Pid, env: Env)
    requires Inv(s) && Unexpired(s, env)
    ensures Handle(s, Health, peer, env) == (s, Ready(s.blocked, s.active.Some? || s.pending.Some?))
  {
  }

  /** A free worker stages a snapshot and issues a capability, which its holder can use to start the run until it
      expires, and nobody else. */
  lemma PreparedCanBeVerified(s: State, peer: Pid, env: Env, other: Pid, capability: Capability, later: Env)
    requires Inv(s) && !s.blocked && s.active.None? && s.pending.None? && env.staged.Some?
    ensures var (t, r) := Handle(s, Prepare, peer, env);
      && r == Prepared(env.capability, env.staged.value)
      && t.snapshots == s.snapshots + {env.run} && t.active.None? && !t.blocked
      && var (u, answer) := Handle(t, Verify(capability), other, later);
         if other == peer && capability == env.capability && later.now < env.later + 2 then
           if later.stored then
             && answer == Accepted(env.run) && u.pending.None?
             && u.active == Some(Job(env.run, env.staged.value, false)) && u.current == Some(env.run)
           else answer == Raised && u.pending.None? && u.active.None?
         else answer == Error("invalid_capability") && u.active.None? && u.started == t.started
  {
  }

  /** A worker that is not free refuses, and says whether that will pass. */
  lemma PrepareIsRefused(s: State, peer: Pid, env: Env)
    requires Inv(s) && Unexpired(s, env) && (s.blocked || s.active.Some? || s.pending.Some?)
    ensures Handle(s, Prepare, peer, env) == (s, Error(if s.blocked then "unavailable" else "busy"))
  {
  }

  lemma FailedStagingChangesNothing(s: State, peer: Pid, env: Env)
    requires Inv(s) && !s.blocked && s.active.None? && s.pending.None? && env.staged.None?
    ensures Handle(s, Prepare, peer, env) == (s, Raised)
  {
  }

  /** Cancelling or cleaning up the running probe sets its flag, and nothing else; asking for its result does not. */
  lemma CancelReachesTheJob(s: State, run: RunId, peer: Pid, env: Env)
    requires Inv(s) && s.active.Some? && s.active.value.run == run
    ensures var job := s.active.value;
      && Handle(s, Cancel(run), peer, env) == (s.(active := Some(Job(run, job.digest, true))), Running(run))
      && Handle(s, Cleanup(run), peer, env) == (s.(active := Some(Job(run, job.digest, true))), Running(run))
      && Handle(s, Result(run), peer, env) == (s, Running(run))
  {
  }

  /** About any other run there is the last report or nothing, and the running probe is left alone. */
  lemma OtherRunsAreReported(s: State, op: Op, run: RunId, peer: Pid, env: Env)
    requires Inv(s) && Unexpired(s, env) && op in {Result(run), Cancel(run), Cleanup(run)}
    requires s.active.Some? ==> s.active.value.run != run
    ensures Handle(s, op, peer, env) ==
      (s, if s.recent.Some? && s.recent.value.run == run then Reported(s.recent.value) else Error("unknown_run"))
  {
  }

  /** A probe that ends frees the worker if and only if everything was cleared up and recorded. */
  lemma EndedFreesOrBlocks(s: State, c: Completion)
    requires Inv(s) && s.active.Some?
    ensures var t := Step(s, Ended(c)); var run := s.active.value.run;
      && t.active.None? && t.pending.None? && t.recent == Some(Finished(run, c.passed))
      && (!t.blocked <==> c.empty && c.destroyed && c.stored && c.unlinked)
      && (c.stored ==> t.recentFile == Some(Finished(run, c.passed)))
      && (t.current.None? <==> !t.blocked)
      && t.snapshots == if c.empty && c.destroyed then s.snapshots - {run} else s.snapshots
  {
  }

  /** A new process takes over the last report, tells of an interrupted run instead if there was one, and is blocked
      exactly if it could not clear the snapshots away. */
  lemma RestartReports(disk: State, cleaned: bool)
    ensures var t := Restart(disk, cleaned);
      && t.pending.None? && t.active.None? && (t.blocked <==> !cleaned)
      && t.snapshots == (if cleaned then {} else disk.snapshots) && t.current.None? && t.recentFile == t.recent
      && (disk.current.Some? ==> t.recent == Some(Reconciled(disk.current.value, cleaned)))
      && (disk.current.None? ==>
            match disk.recentFile
            case Some(Reconciled(run, _)) => t.recent == Some(Reconciled(run, cleaned))
            case last => t.recent == last)
  {
  }
}
