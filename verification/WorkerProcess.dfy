/** The worker process: the fields that requests and the probe change under the lock. */
module WorkerProcess {
  import opened Options
  import opened Worker
  import opened WorkerRuns

  class VerificationWorker {
    var pending: Option<Pending>
    var active: Option<Job>
    var recent: Option<Report>
    var blocked: bool
    var current: Option<RunId>
    var recentFile: Option<Report>
    var snapshots: set<RunId>
    ghost var issued: map<Capability, Grant>
    ghost var started: seq<Start>
    ghost var leaked: bool

    ghost function Now(): State
      reads this
    {
      State(pending, active, recent, blocked, current, recentFile, snapshots, issued, started, leaked)
    }

    /** Restart over the files of an earlier process. */
    constructor (disk: State, cleaned: bool)
      ensures Now() == Restart(disk, cleaned) && Inv(Now())
    {
      var last := disk.recentFile;
      if disk.current.Some? {
        last := Some(Reconciled(disk.current.value, cleaned));
      } else if last.Some? && last.value.Reconciled? {
        last := Some(last.value.(snapshotDestroyed := cleaned));
      }
      pending, active, recent, blocked := None, None, last, !cleaned;
      current, recentFile := None, last;
      snapshots := if cleaned then {} else disk.snapshots;
      issued, started, leaked := map[], [], false;
    }

    method DiscardPending(cleaned: bool)
      modifies this`pending, this`blocked, this`snapshots
      ensures Now() == if old(pending).Some? then Discard(old(Now()), cleaned) else old(Now())
    {
      if pending.Some? {
        if cleaned {
          snapshots := snapshots - {pending.value.run};
        }
        blocked := blocked || !cleaned;
        pending := None;
      }
    }

    /** A request keeps the invariant, if the random token it may draw is a new one. */
    method Request(op: Op, peer: Pid, env: Env) returns (r: Response)
      requires Inv(Now()) && FreshDraw(Now(), Asked(op, peer, env))
      modifies this
      ensures Inv(Now()) && (Now(), r) == Handle(old(Now()), op, peer, env)
      ensures old(blocked) ==> blocked
      ensures r.Accepted? ==> old(active).None? && !blocked && active.Some? && active.value.run == r.run
    {
      StepInv(Now(), Asked(op, peer, env));
      if blocked {
        StepKeepsBlock(Now(), Asked(op, peer, env));
      }
      if Handle(Now(), op, peer, env).1.Accepted? {
        AcceptedWhenIdle(Now(), op, peer, env);
      }
      hide Inv, OnPrepare, OnVerify, OnRun;
      if pending.Some? && env.now >= pending.value.expires {
        DiscardPending(env.cleaned);
      }
      match op
      case Health =>
        return Ready(blocked, active.Some? || pending.Some?);
      case Prepare =>
        r := PrepareRun(peer, env);
      case Verify(capability) =>
        r := StartRun(capability, peer, env);
      case Result(run) =>
        r := AboutRun(run, false);
      case Cancel(run) =>
        r := AboutRun(run, true);
      case Cleanup(run) =>
        r := AboutRun(run, true);
    }

    method PrepareRun(peer: Pid, env: Env) returns (r: Response)
      modifies this`pending, this`snapshots, this`issued
      ensures (Now(), r) == OnPrepare(old(Now()), peer, env)
    {
      if blocked || active.Some? || pending.Some? {
        return Error(if blocked then "unavailable" else "busy");
      }
      if env.staged.None? {
        return Raised;
      }
      snapshots := snapshots + {env.run};
      var expires := env.later + CAPABILITY_LIFETIME;
      pending := Some(Pending(env.capability, expires, peer, env.staged.value, env.run));
      issued := issued[env.capability := Grant(peer, expires, env.run)];
      return Prepared(env.capability, env.staged.value);
    }

    method StartRun(capability: Capability, peer: Pid, env: Env) returns (r: Response)
      modifies this`pending, this`current, this`active, this`started, this`leaked
      ensures (Now(), r) == OnVerify(old(Now()), capability, peer, env)
    {
      if pending.None? || peer != pending.value.peer || capability != pending.value.capability {
        return Error("invalid_capability");
      }
      var p := pending.value;
      pending := None;
      if !env.stored {
        leaked := true;
        return Raised;
      }
      current := Some(p.run);
      active := Some(Job(p.run, p.digest, false));
      started := started + [Start(p.capability, peer, env.now, p.run)];
      return Accepted(p.run);
    }

    method AboutRun(run: RunId, stop: bool) returns (r: Response)
      modifies this`active
      ensures (Now(), r) == OnRun(old(Now()), run, stop)
    {
      if active.Some? && active.value.run == run {
        if stop {
          active := Some(active.value.(cancel := true));
        }
        return Running(run);
      }
      if recent.Some? && recent.value.run == run {
        return Reported(recent.value);
      }
      return Error("unknown_run");
    }

    /** The end of `execute_probe`: the plain assignment cannot clear a block, for there is none. */
    method Finish(c: Completion)
      requires Inv(Now()) && active.Some?
      modifies this
      ensures Inv(Now()) && Now() == Complete(old(Now()), c)
      ensures !old(blocked)
    {
      StepInv(Now(), Ended(c));
      var run := active.value.run;
      var destroyed := c.empty && c.destroyed;
      if destroyed {
        snapshots := snapshots - {run};
      }
      blocked := !c.empty || !destroyed;
      if c.stored {
        recentFile := Some(Finished(run, c.passed));
        if !blocked {
          if c.unlinked {
            current := None;
          } else {
            blocked := true;
          }
        }
      } else {
        blocked := true;
      }
      recent := Some(Finished(run, c.passed));
      active := None;
    }
  }
}
